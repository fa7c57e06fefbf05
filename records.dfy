/**
 * The record normaliser of MoESchools.py: `normalize_value` and
 * `project_record`, which map a raw registry record onto the fixed,
 * ordered field list with `"-"` standing in for every blank value.
 */
module Records {
  import opened Wrappers
  import opened Text

  /** A decoded JSON value, as the registry delivers it. */
  datatype Value =
    | VNull
    | VBool(b: bool)
    | VInt(i: int)
    | VReal(x: real)
    | VStr(s: string)
    | VList(items: seq<Value>)
    | VDict(entries: seq<(string, Value)>)

  /** A raw registry record: a JSON object. A key that is absent reads as `None`. */
  type RawRecord = map<string, Value>

  /** A projected record: field name and value pairs, in field order. */
  type Record = seq<(string, Value)>

  /** The placeholder the downstream system expects for a blank value. */
  const Placeholder: Value := VStr("-")

  /** The exported fields, in export order (MoESchools.py:51-59). */
  const Fields: seq<string> := ["School_Id"] + OtherFields

  /** The fields after the identifier. */
  const OtherFields: seq<string> := [
    "Org_Name", "Telephone", "Fax", "Email", "Contact1_Name", "URL",
    "Add1_Line1", "Add1_Suburb", "Add1_City", "Add2_Line1", "Add2_Suburb",
    "Add2_City", "Add2_Postal_Code", "Authority", "Territorial_Authority",
    "Regional_Council", "General_Electorate", "Māori_Electorate", "Ward",
    "Latitude", "Longitude", "EQi_Index", "Roll_Date", "Total", "European",
    "Māori", "Pacific", "Asian", "MELAA", "Other", "International", "Status",
    "DateSchoolOpened"
  ]

  /** School_Id heads the field list and appears nowhere else in it. */
  lemma IdFieldOnlyFirst()
    ensures Fields[0] == "School_Id" && "School_Id" !in Fields[1..]
  {
    assert Fields[1..] == OtherFields;
  }

  /** A value the normaliser replaces: null, a string that strips to nothing, an empty list or object. */
  predicate IsBlank(v: Value) {
    match v
    case VNull => true
    case VStr(s) => AllSpace(s)
    case VList(items) => |items| == 0
    case VDict(entries) => |entries| == 0
    case _ => false
  }

  /** What a normalised value looks like: never blank, and strings carry no outer whitespace. */
  predicate IsNormalized(v: Value) {
    !IsBlank(v) && (v.VStr? ==> IsTrimmed(v.s))
  }

  /** The placeholder is itself a normalised value. */
  lemma PlaceholderNormalized()
    ensures IsNormalized(Placeholder)
  {
    var p := "-";
    assert p[0] == '-' && !IsSpace(p[0]);
    assert !AllSpace(p);
  }

  /** A string that strips to something non-empty strips to a normalised string. */
  lemma StrippedNormalized(s: string)
    requires Strip(s) != []
    ensures IsNormalized(VStr(Strip(s)))
  {
    StripTrimmed(Strip(s));
  }

  /** `normalize_value` (MoESchools.py:109-117). */
  function NormalizeValue(v: Value): (r: Value)
    ensures IsNormalized(r)
    ensures IsBlank(v) ==> r == Placeholder
    ensures !IsBlank(v) && v.VStr? ==> r == VStr(Strip(v.s))
    ensures !IsBlank(v) && !v.VStr? ==> r == v
  {
    PlaceholderNormalized();
    if v.VNull? then Placeholder
    else if v.VStr? then
      var t := Strip(v.s);
      if t != [] then StrippedNormalized(v.s); VStr(t) else Placeholder
    else if v.VList? then (if |v.items| == 0 then Placeholder else v)
    else if v.VDict? then (if |v.entries| == 0 then Placeholder else v)
    else v
  }

  /** Normalising twice is the same as normalising once. */
  lemma NormalizeIdempotent(v: Value)
    ensures NormalizeValue(NormalizeValue(v)) == NormalizeValue(v)
  {
    NormalizedIsFixed(NormalizeValue(v));
  }

  /** A normalised value is a fixed point of the normaliser. */
  lemma NormalizedIsFixed(v: Value)
    requires IsNormalized(v)
    ensures NormalizeValue(v) == v
  {
    if v.VStr? {
      StripTrimmed(v.s);
    }
  }

  /** Python's `rec.get(f, None)`. */
  function Get(rec: RawRecord, f: string): Value {
    if f in rec then rec[f] else VNull
  }

  /** The field names of a projected record, in order. */
  function Keys(r: Record): (ks: seq<string>)
    ensures |ks| == |r| && forall k :: 0 <= k < |r| ==> ks[k] == r[k].0
  {
    seq(|r|, k requires 0 <= k < |r| => r[k].0)
  }

  /** The value stored under `f` in a projected record: the first pair with that name. */
  function Lookup(r: Record, f: string): (v: Option<Value>)
    ensures v.None? <==> f !in Keys(r)
    ensures v.Some? ==> (f, v.value) in r
  {
    if r == [] then None
    else if r[0].0 == f then Some(r[0].1)
    else
      var v := Lookup(r[1..], f);
      assert Keys(r) == [r[0].0] + Keys(r[1..]);
      v
  }

  /**
   * The comprehension of `project_record` (MoESchools.py:120-121) over a
   * given field list: one normalised entry per field, in field order.
   */
  function Project(fields: seq<string>, rec: RawRecord): (r: Record)
    ensures Keys(r) == fields
    ensures forall k :: 0 <= k < |r| ==> r[k].1 == NormalizeValue(Get(rec, fields[k]))
    ensures forall k :: 0 <= k < |r| ==> IsNormalized(r[k].1)
  {
    seq(|fields|, k requires 0 <= k < |fields| => (fields[k], NormalizeValue(Get(rec, fields[k]))))
  }

  /** `project_record` (MoESchools.py:120-121): the projection onto the exported fields. */
  function ProjectRecord(rec: RawRecord): Record {
    Project(Fields, rec)
  }

  /**
   * Reading a projected record: every field of the list is present and holds the
   * normalised raw value; any other name is absent, whatever the raw record held.
   */
  lemma ProjectedLookup(fields: seq<string>, rec: RawRecord, f: string)
    ensures f in fields ==> Lookup(Project(fields, rec), f) == Some(NormalizeValue(Get(rec, f)))
    ensures f !in fields ==> Lookup(Project(fields, rec), f) == None
  {
    var r := Project(fields, rec);
    var v := Lookup(r, f);
    if v.Some? {
      var k :| 0 <= k < |r| && r[k] == (f, v.value);
      assert Keys(r)[k] == f;
    }
  }

  /** The projected record turned back into an object. */
  function ToRaw(r: Record): (m: RawRecord)
    ensures m.Keys == set k | k in Keys(r)
  {
    if r == [] then map[]
    else
      var m := ToRaw(r[1..]);
      assert Keys(r) == [r[0].0] + Keys(r[1..]);
      m[r[0].0 := r[0].1]
  }

  /** The object built from a record maps each name to the value `Lookup` finds. */
  lemma {:induction false} ToRawLookup(r: Record, f: string)
    requires f in Keys(r)
    ensures Some(ToRaw(r)[f]) == Lookup(r, f)
  {
    assert Keys(r) == [r[0].0] + Keys(r[1..]);
    if r[0].0 != f {
      ToRawLookup(r[1..], f);
    }
  }

  /** Re-projecting a projected record leaves field `k` as it was. */
  lemma ProjectFieldFixed(fields: seq<string>, rec: RawRecord, k: nat)
    requires k < |fields|
    ensures Project(fields, ToRaw(Project(fields, rec)))[k] == Project(fields, rec)[k]
  {
    var r := Project(fields, rec);
    var m := ToRaw(r);
    var f := fields[k];
    assert f == Keys(r)[k];
    ToRawLookup(r, f);
    ProjectedLookup(fields, rec, f);
    assert Get(m, f) == r[k].1;
    NormalizedIsFixed(r[k].1);
  }

  /** Projecting an already projected record changes nothing. */
  lemma ProjectIdempotent(fields: seq<string>, rec: RawRecord)
    ensures Project(fields, ToRaw(Project(fields, rec))) == Project(fields, rec)
  {
    var r := Project(fields, rec);
    var r2 := Project(fields, ToRaw(r));
    forall k | 0 <= k < |fields| ensures r2[k] == r[k] {
      ProjectFieldFixed(fields, rec, k);
    }
  }
}
