/** Sorting keys decides equality up to key order. */
module JsonOrder {
  import opened Wrappers
  import opened Json

  lemma {:induction false} InsertMembers(f: Field, fs: seq<Field>)
    ensures forall x :: x in Insert(f, fs) <==> x == f || x in fs
  {
    if fs != [] && !Before(f.key, fs[0].key) {
      InsertMembers(f, fs[1..]);
      assert fs == [fs[0]] + fs[1..];
    }
  }

  /** Sorting keeps what every key maps to, and yields ascending keys. */
  lemma {:induction false} SortedFieldsLookup(fs: seq<Field>)
    requires Distinct(fs)
    ensures Ascending(SortedFields(fs))
    ensures forall k :: Lookup(SortedFields(fs), k) ==
                        match Lookup(fs, k) case None => None case Some(v) => Some(Sorted(v))
  {
    if fs != [] {
      SortedFieldsLookup(fs[1..]);
      var f := Field(fs[0].key, Sorted(fs[0].value));
      var rest := SortedFields(fs[1..]);
      assert Lookup(rest, f.key).None?;
      InsertAscending(f, rest);
      forall k ensures Lookup(Insert(f, rest), k) == if k == f.key then Some(f.value) else Lookup(rest, k) {
        LookupInsert(f, rest, k);
      }
    }
  }

  lemma {:induction false} SortedFieldsNormal(fs: seq<Field>)
    requires Distinct(fs) && forall i | 0 <= i < |fs| :: WellFormed(fs[i].value)
    ensures forall x :: x in SortedFields(fs) ==> Normal(x.value)
    ensures FieldsDepth(SortedFields(fs)) == FieldsDepth(fs)
    decreases fs, 0
  {
    if fs != [] {
      var f := Field(fs[0].key, Sorted(fs[0].value));
      SortedNormal(fs[0].value);
      SortedFieldsNormal(fs[1..]);
      InsertMembers(f, SortedFields(fs[1..]));
      InsertDepth(f, SortedFields(fs[1..]));
    }
  }

  lemma {:induction false} InsertDepth(f: Field, fs: seq<Field>)
    ensures FieldsDepth(Insert(f, fs)) == Max(Depth(f.value), FieldsDepth(fs))
  {
    if fs == [] || Before(f.key, fs[0].key) {
      assert ([f] + fs)[1..] == fs;
    } else {
      InsertDepth(f, fs[1..]);
      assert ([fs[0]] + Insert(f, fs[1..]))[1..] == Insert(f, fs[1..]);
    }
  }

  lemma {:induction false} SortedItemsDepth(items: seq<Value>)
    requires forall i | 0 <= i < |items| :: Depth(Sorted(items[i])) == Depth(items[i])
    ensures ItemsDepth(SortedItems(items)) == ItemsDepth(items)
  {
    if items != [] {
      SortedItemsDepth(items[1..]);
      assert SortedItems(items)[1..] == SortedItems(items[1..]);
    }
  }

  /** Sorting a well-formed value gives a normal one of the same depth. */
  lemma {:induction false} SortedNormal(v: Value)
    requires WellFormed(v)
    ensures Normal(Sorted(v)) && Depth(Sorted(v)) == Depth(v)
    decreases v, 1
  {
    match v
    case Arr(items) =>
      forall i | 0 <= i < |items| ensures Normal(Sorted(items[i])) && Depth(Sorted(items[i])) == Depth(items[i]) {
        SortedNormal(items[i]);
      }
      SortedItemsDepth(items);
    case Obj(fields) =>
      SortedFieldsLookup(fields);
      SortedFieldsNormal(fields);
      var s := SortedFields(fields);
      assert forall i | 0 <= i < |s| :: s[i] in s;
    case _ =>
  }

  lemma {:induction false} SortedFieldsFixpoint(fs: seq<Field>)
    requires Ascending(fs) && forall i | 0 <= i < |fs| :: Sorted(fs[i].value) == fs[i].value
    ensures SortedFields(fs) == fs
  {
    if fs != [] {
      SortedFieldsFixpoint(fs[1..]);
      assert fs == [fs[0]] + fs[1..];
    }
  }

  /** A normal value is well-formed and sorting leaves it alone. */
  lemma {:induction false} NormalFixpoint(v: Value)
    requires Normal(v)
    ensures WellFormed(v) && Sorted(v) == v
  {
    match v
    case Arr(items) =>
      forall i | 0 <= i < |items| ensures WellFormed(items[i]) && Sorted(items[i]) == items[i] {
        NormalFixpoint(items[i]);
      }
      assert SortedItems(items) == items;
    case Obj(fields) =>
      forall i | 0 <= i < |fields| ensures WellFormed(fields[i].value) && Sorted(fields[i].value) == fields[i].value {
        NormalFixpoint(fields[i].value);
      }
      AscendingDistinct(fields);
      SortedFieldsFixpoint(fields);
    case _ =>
  }

  /** Two optional values are both absent, or both present and the same. */
  ghost predicate SameOption(a: Option<Value>, b: Option<Value>) {
    match (a, b)
    case (Some(x), Some(y)) => Same(x, y)
    case _ => a == b
  }

  /** Every key maps to the same value. */
  ghost predicate SameLookups(f: seq<Field>, g: seq<Field>) {
    forall k :: SameOption(Lookup(f, k), Lookup(g, k))
  }

  lemma SameToLookups(f: seq<Field>, g: seq<Field>)
    requires Distinct(f) && Distinct(g) && Same(Obj(f), Obj(g))
    ensures SameLookups(f, g)
  {
    forall k ensures SameOption(Lookup(f, k), Lookup(g, k)) {
      assert HasKey(f, k) <==> HasKey(g, k);
      if HasKey(f, k) {
        var i := LookupIndex(f, k);
      }
    }
  }

  lemma LookupsToSame(f: seq<Field>, g: seq<Field>)
    requires Distinct(f) && Distinct(g) && SameLookups(f, g)
    ensures Same(Obj(f), Obj(g))
  {
    forall k ensures HasKey(f, k) <==> HasKey(g, k) {
      assert SameOption(Lookup(f, k), Lookup(g, k));
    }
    forall i | 0 <= i < |f| && HasKey(g, f[i].key) ensures Same(f[i].value, Lookup(g, f[i].key).value) {
      LookupAt(f, i);
      assert SameOption(Lookup(f, f[i].key), Lookup(g, f[i].key));
    }
  }

  /** Objects are the same exactly when every key maps to the same value. */
  lemma SameByLookup(f: seq<Field>, g: seq<Field>)
    requires Distinct(f) && Distinct(g)
    ensures Same(Obj(f), Obj(g)) <==> SameLookups(f, g)
  {
    if Same(Obj(f), Obj(g)) {
      SameToLookups(f, g);
    }
    if SameLookups(f, g) {
      LookupsToSame(f, g);
    }
  }

  lemma {:induction false} SameItemsIff(s: seq<Value>, t: seq<Value>)
    requires WellFormed(Arr(s)) && WellFormed(Arr(t))
    ensures Same(Arr(s), Arr(t)) <==> SortedItems(s) == SortedItems(t)
    decreases Arr(s), 0
  {
    if |s| == |t| {
      forall i | 0 <= i < |s| ensures Same(s[i], t[i]) <==> SortedItems(s)[i] == SortedItems(t)[i] {
        SameIffSortedEqual(s[i], t[i]);
      }
    } else {
      assert |SortedItems(s)| != |SortedItems(t)|;
    }
  }

  lemma {:induction false} SameFieldsIff(f: seq<Field>, g: seq<Field>)
    requires WellFormed(Obj(f)) && WellFormed(Obj(g))
    ensures Same(Obj(f), Obj(g)) <==> SortedFields(f) == SortedFields(g)
    decreases Obj(f), 0
  {
    SameByLookup(f, g);
    SortedFieldsLookup(f);
    SortedFieldsLookup(g);
    forall k
      ensures SameOption(Lookup(f, k), Lookup(g, k)) <==> Lookup(SortedFields(f), k) == Lookup(SortedFields(g), k)
    {
      if HasKey(f, k) && HasKey(g, k) {
        var i := LookupIndex(f, k);
        var j := LookupIndex(g, k);
        SameIffSortedEqual(f[i].value, g[j].value);
      }
    }
    if SameLookups(f, g) {
      forall k ensures Lookup(SortedFields(f), k) == Lookup(SortedFields(g), k) {
        assert SameOption(Lookup(f, k), Lookup(g, k));
      }
      AscendingUnique(SortedFields(f), SortedFields(g));
    }
  }

  /** Two well-formed values are equal up to key order exactly when they sort to the same value. */
  lemma {:induction false} SameIffSortedEqual(a: Value, b: Value)
    requires WellFormed(a) && WellFormed(b)
    ensures Same(a, b) <==> Sorted(a) == Sorted(b)
    decreases a, 1
  {
    match (a, b)
    case (Arr(s), Arr(t)) => SameItemsIff(s, t);
    case (Obj(f), Obj(g)) => SameFieldsIff(f, g);
    case _ =>
  }

  lemma OnlyKeysByLookup(fs: seq<Field>, allowed: set<string>)
    ensures OnlyKeys(fs, allowed) <==> forall k | HasKey(fs, k) :: k in allowed
  {
    if OnlyKeys(fs, allowed) {
      forall k | HasKey(fs, k) ensures k in allowed {
        var i := LookupIndex(fs, k);
      }
    } else {
      var i :| 0 <= i < |fs| && fs[i].key !in allowed;
      LookupAt(fs, i);
    }
  }

  lemma SameOnlyKeys(f: seq<Field>, g: seq<Field>, allowed: set<string>)
    requires forall k :: HasKey(f, k) <==> HasKey(g, k)
    ensures OnlyKeys(f, allowed) <==> OnlyKeys(g, allowed)
  {
    OnlyKeysByLookup(f, allowed);
    OnlyKeysByLookup(g, allowed);
  }

  // ---------- nesting ----------

  lemma {:induction false} ShallowFields(fs: seq<Field>, depth: nat)
    requires forall i | 0 <= i < |fs| :: Depth(fs[i].value) <= depth
    ensures FieldsDepth(fs) <= depth
  {
    if fs != [] {
      ShallowFields(fs[1..], depth);
    }
  }

  lemma {:induction false} ShallowItems(items: seq<Value>, depth: nat)
    requires forall i | 0 <= i < |items| :: Depth(items[i]) <= depth
    ensures ItemsDepth(items) <= depth
  {
    if items != [] {
      ShallowItems(items[1..], depth);
    }
  }
}
