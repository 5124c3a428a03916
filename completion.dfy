/** The no-data completion of `with_no_data`: placeholder rows for every registry country
    whose code is not in the "present" set, appended after the dataset's own rows. */
module Completion {
  import opened ChoroTypes

  /** Indicator value written into every placeholder row. */
  const NoDataValue: real := -1.0

  /** The present set as the code builds it: `set()` applied to the Code column's LABEL,
      which yields the label's characters, each a one-character string. */
  function PresentAsWritten(codeLabel: string): (p: set<string>)
    ensures forall c :: c in p ==> |c| == 1 && c[0] in codeLabel
    ensures forall i :: 0 <= i < |codeLabel| ==> [codeLabel[i]] in p
  {
    set ch | ch in codeLabel :: [ch]
  }

  /** The set of codes in the Code column, the corrected present set. */
  function CodesOf(rows: seq<Row>): set<string>
  {
    set r | r in rows :: r.code
  }

  /** The set of codes of the registry. */
  function RegistryCodes(registry: seq<CountryEntry>): set<string>
  {
    set e | e in registry :: e.code
  }

  /** Codes are unique within the registry. */
  predicate UniqueCodes(registry: seq<CountryEntry>)
  {
    forall i, j :: 0 <= i < j < |registry| ==> registry[i].code != registry[j].code
  }

  /** The codes missing from the dataset: registry codes minus the present set.
      The code turns this set into a sorted list, but that list is only ever read
      by a membership test, so its order plays no part. */
  function MissingCodes(registry: seq<CountryEntry>, present: set<string>): (m: set<string>)
    ensures m <= RegistryCodes(registry) && m !! present
    ensures forall e :: e in registry && e.code !in present ==> e.code in m
  {
    RegistryCodes(registry) - present
  }

  /** The `isin` filter: the entries whose code is in `codes`, in their original order. */
  function KeepIsin(entries: seq<CountryEntry>, codes: set<string>): (m: seq<CountryEntry>)
    ensures |m| <= |entries|
    ensures forall e :: e in m <==> e in entries && e.code in codes
  {
    if entries == [] then []
    else if entries[0].code in codes then [entries[0]] + KeepIsin(entries[1..], codes)
    else KeepIsin(entries[1..], codes)
  }

  /** The registry entries that receive a placeholder row, in registry order. */
  function MissingEntries(registry: seq<CountryEntry>, present: set<string>): seq<CountryEntry>
  {
    KeepIsin(registry, MissingCodes(registry, present))
  }

  /** The placeholder row of a registry entry: its name and code, a missing year and the no-data value. */
  function Placeholder(e: CountryEntry): (r: Row)
    ensures CountryEntry(r.entity, r.code) == e
    ensures r.year.None? && r.indicator == NoDataValue
  {
    Row(e.name, e.code, None, NoDataValue)
  }

  function PlaceholderRows(entries: seq<CountryEntry>): (rows: seq<Row>)
    ensures |rows| == |entries|
  {
    seq(|entries|, i requires 0 <= i < |entries| => Placeholder(entries[i]))
  }

  /** Python's normalisation of a slice bound `i` against a length `n`. */
  function SliceBound(i: int, n: nat): (k: nat)
    ensures k <= n
  {
    if i < 0 then (if n + i < 0 then 0 else n + i) else if i > n then n else i
  }

  /** `iloc[start:stop]` with step 1, negative bounds counting from the end. */
  function ILoc<T>(s: seq<T>, start: int, stop: int): (r: seq<T>)
    ensures |r| <= |s|
    ensures start == stop ==> r == []
    ensures forall i :: 0 <= i < |r| ==> r[i] in s
  {
    var a, b := SliceBound(start, |s|), SliceBound(stop, |s|);
    if a < b then s[a..b] else []
  }

  /** The completed dataset: the original rows, then the placeholder rows, then the slice
      `iloc[-1:-1]` of the original rows; the metadata is the dataset's own. */
  function CompleteWith(ds: Dataset, registry: seq<CountryEntry>, present: set<string>): (c: Dataset)
    ensures c.metadata == ds.metadata
    ensures c.data.codeLabel == ds.data.codeLabel
    ensures |c.data.rows| == |ds.data.rows| + |MissingEntries(registry, present)|
    ensures c.data.rows[..|ds.data.rows|] == ds.data.rows
    ensures forall i :: 0 <= i < |MissingEntries(registry, present)| ==>
              c.data.rows[|ds.data.rows| + i] == Placeholder(MissingEntries(registry, present)[i])
  {
    var rows := ds.data.rows;
    var extra := PlaceholderRows(MissingEntries(registry, present));
    Dataset(Table(ds.data.codeLabel, rows + extra + ILoc(rows, -1, -1)), ds.metadata)
  }

  /** The completion as `with_no_data` computes it, with the present set taken from the column label. */
  function CompleteAsWritten(ds: Dataset, registry: seq<CountryEntry>): (c: Dataset)
    ensures c.metadata == ds.metadata
    ensures |c.data.rows| >= |ds.data.rows| && c.data.rows[..|ds.data.rows|] == ds.data.rows
    ensures forall e :: e in registry && |e.code| != 1 ==> Placeholder(e) in c.data.rows
  {
    CompletedRows(ds, registry, PresentAsWritten(ds.data.codeLabel));
    CompleteWith(ds, registry, PresentAsWritten(ds.data.codeLabel))
  }

  /** The completion with the present set taken from the whole Code column. */
  function CompleteByCodes(ds: Dataset, registry: seq<CountryEntry>): Dataset
  {
    CompleteWith(ds, registry, CodesOf(ds.data.rows))
  }

  /** The filter keeps order: filtering a concatenation is concatenating the filtered parts. */
  lemma {:induction false} KeepIsinConcat(a: seq<CountryEntry>, b: seq<CountryEntry>, codes: set<string>)
    ensures KeepIsin(a + b, codes) == KeepIsin(a, codes) + KeepIsin(b, codes)
  {
    if a == [] {
      assert a + b == b;
    } else {
      assert (a + b)[1..] == a[1..] + b;
      KeepIsinConcat(a[1..], b, codes);
    }
  }

  /** An entry of the registry gets a placeholder exactly when its code is not present:
      filtering by the missing-code set is filtering by "code not present". */
  lemma MissingEntryIff(registry: seq<CountryEntry>, present: set<string>, e: CountryEntry)
    ensures e in MissingEntries(registry, present) <==> e in registry && e.code !in present
  {
  }

  /** The set of codes given placeholder rows is exactly the missing-code set. */
  lemma MissingEntriesCodes(registry: seq<CountryEntry>, present: set<string>)
    ensures (set e | e in MissingEntries(registry, present) :: e.code) == MissingCodes(registry, present)
  {
    var m := MissingEntries(registry, present);
    forall c | c in MissingCodes(registry, present)
      ensures c in (set e | e in m :: e.code)
    {
      var e :| e in registry && e.code == c;
      assert e in m;
    }
  }

  lemma RegistryCodesCons(entries: seq<CountryEntry>)
    requires entries != []
    ensures RegistryCodes(entries) == {entries[0].code} + RegistryCodes(entries[1..])
  {
    assert entries == [entries[0]] + entries[1..];
  }

  /** Unique codes: the tail is unique too and does not hold the head's code. */
  lemma UniqueCodesTail(entries: seq<CountryEntry>)
    requires entries != [] && UniqueCodes(entries)
    ensures UniqueCodes(entries[1..])
    ensures entries[0].code !in RegistryCodes(entries[1..])
  {
    var rest := entries[1..];
    forall i, j | 0 <= i < j < |rest| ensures rest[i].code != rest[j].code {
      assert rest[i] == entries[i + 1] && rest[j] == entries[j + 1];
    }
    forall c | c in RegistryCodes(rest) ensures c != entries[0].code {
      var e :| e in rest && e.code == c;
      var j :| 0 <= j < |rest| && rest[j] == e;
      assert entries[j + 1] == e;
    }
  }

  /** Intersecting with a set that holds one more code adds one element when that code is in `codes`. */
  lemma IntersectCons(c0: string, tail: set<string>, codes: set<string>)
    requires c0 !in tail
    ensures |({c0} + tail) * codes| == |tail * codes| + (if c0 in codes then 1 else 0)
  {
    if c0 in codes {
      assert ({c0} + tail) * codes == (tail * codes) + {c0};
    } else {
      assert ({c0} + tail) * codes == tail * codes;
    }
  }

  lemma {:induction false} KeepIsinCount(entries: seq<CountryEntry>, codes: set<string>)
    requires UniqueCodes(entries)
    ensures |KeepIsin(entries, codes)| == |RegistryCodes(entries) * codes|
  {
    if entries != [] {
      var rest, c0 := entries[1..], entries[0].code;
      UniqueCodesTail(entries);
      KeepIsinCount(rest, codes);
      RegistryCodesCons(entries);
      IntersectCons(c0, RegistryCodes(rest), codes);
      assert |KeepIsin(entries, codes)| == |KeepIsin(rest, codes)| + (if c0 in codes then 1 else 0);
    }
  }

  /** With unique registry codes, one placeholder row per missing code. */
  lemma MissingEntriesCount(registry: seq<CountryEntry>, present: set<string>)
    requires UniqueCodes(registry)
    ensures |MissingEntries(registry, present)| == |MissingCodes(registry, present)|
  {
    KeepIsinCount(registry, MissingCodes(registry, present));
    assert RegistryCodes(registry) * MissingCodes(registry, present) == MissingCodes(registry, present);
  }

  /** Every row of the completed table is an original row or the placeholder of a registry entry
      whose code is not present; and every such entry has its placeholder in the table. */
  lemma CompletedRows(ds: Dataset, registry: seq<CountryEntry>, present: set<string>)
    ensures forall r :: r in CompleteWith(ds, registry, present).data.rows <==>
              r in ds.data.rows || exists e :: e in registry && e.code !in present && r == Placeholder(e)
  {
    var c := CompleteWith(ds, registry, present);
    var n := |ds.data.rows|;
    var m := MissingEntries(registry, present);
    assert c.data.rows == ds.data.rows + PlaceholderRows(m);
    forall e | e in registry && e.code !in present ensures Placeholder(e) in c.data.rows {
      var i :| 0 <= i < |m| && m[i] == e;
      assert c.data.rows[n + i] == Placeholder(e);
    }
  }

  /** As written, a country the dataset covers still receives a placeholder row: the Code label's
      characters never match a three-letter code, so the completed table lists it twice. */
  lemma AsWrittenDuplicatesCoveredCountry()
    ensures var afg := CountryEntry("Afghanistan", "AFG");
            var ds := Dataset(Table("Code", [Row("Afghanistan", "AFG", Some(2019), 4.5)]), Metadata("Lead", "ug/dL"));
            var c := CompleteAsWritten(ds, [afg]);
            |c.data.rows| == 2 && c.data.rows[0].code == c.data.rows[1].code == "AFG"
            && c.data.rows[1].indicator == NoDataValue
  {
    var afg := CountryEntry("Afghanistan", "AFG");
    var ds := Dataset(Table("Code", [Row("Afghanistan", "AFG", Some(2019), 4.5)]), Metadata("Lead", "ug/dL"));
    assert "AFG" !in PresentAsWritten("Code");
    assert MissingEntries([afg], PresentAsWritten("Code")) == [afg];
  }

  /** With the present set taken from the Code column, no placeholder repeats a country the
      dataset already covers. */
  lemma ByCodesNoDuplicate(ds: Dataset, registry: seq<CountryEntry>)
    ensures forall i :: |ds.data.rows| <= i < |CompleteByCodes(ds, registry).data.rows| ==>
              CompleteByCodes(ds, registry).data.rows[i].code !in CodesOf(ds.data.rows)
  {
    var m := MissingEntries(registry, CodesOf(ds.data.rows));
    var c := CompleteByCodes(ds, registry);
    forall i | |ds.data.rows| <= i < |c.data.rows| ensures c.data.rows[i].code !in CodesOf(ds.data.rows) {
      var k := i - |ds.data.rows|;
      assert c.data.rows[i] == Placeholder(m[k]);
      assert m[k] in m;
    }
  }

  /** Filtering by a set that holds none of the entries' codes keeps nothing. */
  lemma {:induction false} KeepIsinDisjoint(entries: seq<CountryEntry>, codes: set<string>)
    requires RegistryCodes(entries) !! codes
    ensures KeepIsin(entries, codes) == []
  {
    if entries != [] {
      assert entries[0] in entries;
      assert RegistryCodes(entries[1..]) <= RegistryCodes(entries);
      KeepIsinDisjoint(entries[1..], codes);
    }
  }

  /** A registry all of whose codes are present yields no placeholder. */
  lemma NothingMissing(registry: seq<CountryEntry>, present: set<string>)
    requires RegistryCodes(registry) <= present
    ensures MissingEntries(registry, present) == []
  {
    KeepIsinDisjoint(registry, MissingCodes(registry, present));
  }

  /** With the present set taken from the Code column, completing a completed dataset adds nothing. */
  lemma ByCodesIdempotent(ds: Dataset, registry: seq<CountryEntry>)
    ensures CompleteByCodes(CompleteByCodes(ds, registry), registry).data.rows
              == CompleteByCodes(ds, registry).data.rows
  {
    var c := CompleteByCodes(ds, registry);
    var codes := CodesOf(c.data.rows);
    forall code | code in RegistryCodes(registry) ensures code in codes {
      var e :| e in registry && e.code == code;
      if code in CodesOf(ds.data.rows) {
        var r :| r in ds.data.rows && r.code == code;
        assert r in c.data.rows;
      } else {
        CompletedRows(ds, registry, CodesOf(ds.data.rows));
        assert Placeholder(e) in c.data.rows;
      }
    }
    NothingMissing(registry, codes);
    assert c.data.rows[..|c.data.rows|] == c.data.rows;
  }

  /** With the present set taken from the Code column and every covered code a registry code,
      the number of placeholder rows is the registry size minus the number of covered codes. */
  lemma ByCodesCount(ds: Dataset, registry: seq<CountryEntry>)
    requires UniqueCodes(registry)
    requires CodesOf(ds.data.rows) <= RegistryCodes(registry)
    ensures |CompleteByCodes(ds, registry).data.rows| - |ds.data.rows|
              == |RegistryCodes(registry)| - |CodesOf(ds.data.rows)|
  {
    MissingEntriesCount(registry, CodesOf(ds.data.rows));
    var R, D := RegistryCodes(registry), CodesOf(ds.data.rows);
    assert R == (R - D) + D;
    assert (R - D) !! D;
  }
}
