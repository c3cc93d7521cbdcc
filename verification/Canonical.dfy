/** Canonical JSON: the bytes behind object ids and signatures (src/util/canonical.rs). */
module Canonical {
  import opened Wrappers
  import opened Json
  import opened JsonOrder
  import opened JsonText
  import opened JsonRoundTrip

  /** Compact text of the value with every object's keys sorted. */
  function CanonicalText(v: Value): string {
    Compact(Sorted(v))
  }

  // ---------- the printer of the source ----------

  /** `entries.sort_by_key`: one level only, values untouched. */
  function SortByKey(fs: seq<Field>): (r: seq<Field>)
    ensures |r| == |fs|
  {
    if fs == [] then [] else Insert(fs[0], SortByKey(fs[1..]))
  }

  function SortedField(f: Field): Field {
    Field(f.key, Sorted(f.value))
  }

  /** The two sequences agree entry by entry once the values of `s` are sorted. */
  predicate Pairs(s: seq<Field>, t: seq<Field>) {
    |s| == |t| && forall i | 0 <= i < |s| :: t[i] == SortedField(s[i])
  }

  lemma {:induction false} InsertPairs(f: Field, s: seq<Field>, t: seq<Field>)
    requires Pairs(s, t)
    ensures Pairs(Insert(f, s), Insert(SortedField(f), t))
  {
    if s != [] && !Before(f.key, s[0].key) {
      InsertPairs(f, s[1..], t[1..]);
    }
  }

  /** Sorting one level and then inside each value is the same as sorting everything first. */
  lemma {:induction false} SortByKeyPairs(fs: seq<Field>)
    ensures Pairs(SortByKey(fs), SortedFields(fs))
    ensures forall x :: x in SortByKey(fs) ==> x in fs
  {
    if fs != [] {
      SortByKeyPairs(fs[1..]);
      InsertPairs(fs[0], SortByKey(fs[1..]), SortedFields(fs[1..]));
      InsertMembers(fs[0], SortByKey(fs[1..]));
    }
  }

  lemma {:induction false} ItemsTextSnoc(items: seq<Value>, v: Value)
    ensures ItemsText(items + [v]) == ItemsText(items) + (if items == [] then "" else ",") + Compact(v)
  {
    if items == [] {
      assert items + [v] == [v];
    } else {
      assert (items + [v])[1..] == items[1..] + [v];
      ItemsTextSnoc(items[1..], v);
    }
  }

  lemma {:induction false} FieldsTextSnoc(fs: seq<Field>, f: Field)
    ensures FieldsText(fs + [f]) == FieldsText(fs) + (if fs == [] then "" else ",") + FieldText(f)
  {
    if fs == [] {
      assert fs + [f] == [f];
    } else {
      assert (fs + [f])[1..] == fs[1..] + [f];
      FieldsTextSnoc(fs[1..], f);
    }
  }

  /** What has been written before item `i` of an array. */
  function ArrayPrefix(arr: seq<Value>, i: nat): string
    requires i <= |arr|
  {
    "[" + ItemsText(SortedItems(arr[..i]))
  }

  lemma ArrayPrefixStep(arr: seq<Value>, i: nat)
    requires i < |arr|
    ensures ArrayPrefix(arr, i + 1) == ArrayPrefix(arr, i) + (if i > 0 then "," else "") + CanonicalText(arr[i])
  {
    assert SortedItems(arr[..i + 1]) == SortedItems(arr[..i]) + [Sorted(arr[i])];
    ItemsTextSnoc(SortedItems(arr[..i]), Sorted(arr[i]));
  }

  /** What has been written before field `i` of an object with these entries. */
  function ObjectPrefix(sorted: seq<Field>, i: nat): string
    requires i <= |sorted|
  {
    "{" + FieldsText(sorted[..i])
  }

  lemma ObjectPrefixStep(sorted: seq<Field>, i: nat)
    requires i < |sorted|
    ensures ObjectPrefix(sorted, i + 1) ==
            ObjectPrefix(sorted, i) + (if i > 0 then "," else "") +
            Quote(sorted[i].key) + ":" + Compact(sorted[i].value)
  {
    assert sorted[..i + 1] == sorted[..i] + [sorted[i]];
    FieldsTextSnoc(sorted[..i], sorted[i]);
  }

  /** Sorts only the keys of the current object and recurses into its values; the result is the
      compact text of the value sorted at every depth. */
  method ToCanonicalJson(v: Value) returns (buf: string)
    ensures buf == CanonicalText(v)
    decreases v
  {
    match v
    case Arr(arr) =>
      buf := "[";
      for i := 0 to |arr|
        invariant buf == ArrayPrefix(arr, i)
      {
        if i > 0 {
          buf := buf + ",";
        }
        var item := ToCanonicalJson(arr[i]);
        buf := buf + item;
        ArrayPrefixStep(arr, i);
      }
      assert arr[..|arr|] == arr;
      buf := buf + "]";
    case Obj(fields) =>
      var entries := SortByKey(fields);
      ghost var sorted := SortedFields(fields);
      SortByKeyPairs(fields);
      buf := "{";
      for i := 0 to |entries|
        invariant buf == ObjectPrefix(sorted, i)
      {
        if i > 0 {
          buf := buf + ",";
        }
        assert entries[i] in fields;
        buf := buf + Quote(entries[i].key);
        buf := buf + ":";
        var value := ToCanonicalJson(entries[i].value);
        buf := buf + value;
        ObjectPrefixStep(sorted, i);
      }
      assert sorted[..|sorted|] == sorted;
      buf := buf + "}";
    case _ =>
      buf := Compact(v);
  }

  // ---------- what the canonical text determines ----------

  /** Canonical texts are equal exactly when the values are equal up to key order. */
  lemma CanonicalDecides(a: Value, b: Value)
    requires WellFormed(a) && WellFormed(b)
    ensures CanonicalText(a) == CanonicalText(b) <==> Same(a, b)
  {
    assert CanonicalText(a) + "" == CanonicalText(a) && CanonicalText(b) + "" == CanonicalText(b);
    SameIffSortedEqual(a, b);
    if CanonicalText(a) == CanonicalText(b) {
      UniquelyDecodable(a, "", b, "");
    }
  }

  /** No canonical text is a proper beginning of another one, except that a number may be extended. */
  lemma UniquelyDecodable(a: Value, k: string, b: Value, l: string)
    requires WellFormed(a) && WellFormed(b) && NumberEnds(k) && NumberEnds(l)
    requires CanonicalText(a) + k == CanonicalText(b) + l
    ensures Same(a, b) && k == l
  {
    var depth := Depth(a) + Depth(b) + 1;
    CanonicalParses(a, k, depth);
    CanonicalParses(b, l, depth);
    SameIffSortedEqual(a, b);
  }

  lemma CanonicalParses(v: Value, k: string, depth: nat)
    requires WellFormed(v) && NumberEnds(k) && depth > 0
    ensures ParseValue(CanonicalText(v) + k, depth) == if Depth(v) < depth then Some((Sorted(v), k)) else None
  {
    SortedNormal(v);
    NormalFixpoint(Sorted(v));
    ValueParses(Sorted(v), k, depth);
  }

  /** Canonical text is read back, with keys sorted, exactly when it is nested less than 128 deep. */
  lemma CanonicalReadBack(v: Value)
    requires WellFormed(v)
    ensures FromStr(CanonicalText(v)) == if Depth(v) < RECURSION_LIMIT then Some(Sorted(v)) else None
  {
    CanonicalParses(v, "", RECURSION_LIMIT);
    assert CanonicalText(v) + "" == CanonicalText(v);
  }

  /** Any text that parses has a canonical form that parses to the very same value, so canonicalising
      again changes nothing. */
  lemma RecanonicalisingIsIdentity(text: string)
    requires FromStr(text).Some?
    ensures var v := FromStr(text).value;
            Normal(v) && FromStr(CanonicalText(v)) == Some(v)
  {
    ParsedNormal(text, RECURSION_LIMIT);
    var v := FromStr(text).value;
    NormalFixpoint(v);
    CanonicalReadBack(v);
  }

  // ---------- object ids ----------

  /** No two different texts of the set have the same digest. */
  ghost predicate CollisionFree(digest: string -> string, texts: iset<string>) {
    forall a, b | a in texts && b in texts && digest(a) == digest(b) :: a == b
  }

  /** `compute_object_id`, for the hex text of the digest. */
  function ObjectId(digest: string -> string, v: Value): string {
    digest(CanonicalText(v))
  }

  method ComputeObjectId(digest: string -> string, v: Value) returns (id: string)
    ensures id == ObjectId(digest, v)
  {
    var canonical := ToCanonicalJson(v);
    id := digest(canonical);
  }

  /** The id does not depend on key order; without a collision it depends on everything else. */
  lemma ObjectIdDecides(digest: string -> string, a: Value, b: Value)
    requires WellFormed(a) && WellFormed(b)
    ensures Same(a, b) ==> ObjectId(digest, a) == ObjectId(digest, b)
    ensures CollisionFree(digest, iset{CanonicalText(a), CanonicalText(b)}) ==>
              (ObjectId(digest, a) == ObjectId(digest, b) <==> Same(a, b))
  {
    CanonicalDecides(a, b);
  }

  /** `ensure_object_field`: the fields of the object under the key `object`. */
  function EnsureObjectField(raw: Value): Option<seq<Field>> {
    if !raw.Obj? then None else
    var inner :- Lookup(raw.fields, "object");
    if inner.Obj? then Some(inner.fields) else None
  }
}
