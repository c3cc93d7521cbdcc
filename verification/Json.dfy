/** JSON values, the order on object keys, and equality up to key order.

    A `string` is a Rust `str`: its characters are Unicode scalar values.  Rust compares strings by
    their UTF-8 bytes; `Utf8.BeforeIsByteOrder` shows that `Before` is that order. */
module Json {
  import opened Wrappers

  /** Numbers are the integers `serde_json` stores exactly (`u64` and `i64`). An object is a list of
      fields in any order. */
  datatype Value =
    | Null
    | Bool(b: bool)
    | Num(n: int)
    | Str(s: string)
    | Arr(items: seq<Value>)
    | Obj(fields: seq<Field>)

  datatype Field = Field(key: string, value: Value)

  const MAX_U64: int := 0xFFFF_FFFF_FFFF_FFFF
  const MIN_I64: int := -0x8000_0000_0000_0000

  // ---------- the order on keys ----------

  predicate Before(a: string, b: string) {
    if b == "" then false
    else if a == "" then true
    else if a[0] == b[0] then Before(a[1..], b[1..])
    else a[0] < b[0]
  }

  lemma {:induction false} BeforeTotal(a: string, b: string)
    ensures Before(a, b) || a == b || Before(b, a)
  {
    if a != "" && b != "" && a[0] == b[0] {
      BeforeTotal(a[1..], b[1..]);
      assert a == [a[0]] + a[1..] && b == [b[0]] + b[1..];
    }
  }

  lemma {:induction false} BeforeAsymmetric(a: string, b: string)
    requires Before(a, b)
    ensures a != b && !Before(b, a)
  {
    if a != "" && a[0] == b[0] {
      BeforeAsymmetric(a[1..], b[1..]);
    }
  }

  lemma {:induction false} BeforeTransitive(a: string, b: string, c: string)
    requires Before(a, b) && Before(b, c)
    ensures Before(a, c)
  {
    if a != "" && a[0] == b[0] == c[0] {
      BeforeTransitive(a[1..], b[1..], c[1..]);
    }
  }

  // ---------- fields ----------

  /** `Map::get`. */
  function Lookup(fs: seq<Field>, key: string): (r: Option<Value>) {
    if fs == [] then None
    else if fs[0].key == key then Some(fs[0].value)
    else Lookup(fs[1..], key)
  }

  predicate HasKey(fs: seq<Field>, key: string) {
    Lookup(fs, key).Some?
  }

  predicate Distinct(fs: seq<Field>) {
    fs == [] || (!HasKey(fs[1..], fs[0].key) && Distinct(fs[1..]))
  }

  /** Keys strictly increase: the iteration order of a `BTreeMap`. */
  predicate Ascending(fs: seq<Field>) {
    |fs| <= 1 || (Before(fs[0].key, fs[1].key) && Ascending(fs[1..]))
  }

  /** Inserts before the first field with a greater key. */
  function Insert(f: Field, fs: seq<Field>): (r: seq<Field>)
    ensures |r| == |fs| + 1
  {
    if fs == [] || Before(f.key, fs[0].key) then [f] + fs
    else [fs[0]] + Insert(f, fs[1..])
  }

  lemma {:induction false} LookupAt(fs: seq<Field>, i: nat)
    requires i < |fs|
    ensures HasKey(fs, fs[i].key)
    ensures Distinct(fs) ==> Lookup(fs, fs[i].key) == Some(fs[i].value)
  {
    if i > 0 {
      LookupAt(fs[1..], i - 1);
    }
  }

  lemma {:induction false} LookupIndex(fs: seq<Field>, key: string) returns (i: nat)
    requires HasKey(fs, key)
    ensures i < |fs| && fs[i].key == key && Lookup(fs, key) == Some(fs[i].value)
  {
    if fs[0].key == key {
      i := 0;
    } else {
      i := LookupIndex(fs[1..], key);
      i := i + 1;
    }
  }

  lemma {:induction false} LookupInsert(f: Field, fs: seq<Field>, key: string)
    requires !HasKey(fs, f.key)
    ensures Lookup(Insert(f, fs), key) == if key == f.key then Some(f.value) else Lookup(fs, key)
  {
    if fs == [] || Before(f.key, fs[0].key) {
      assert ([f] + fs)[1..] == fs;
    } else {
      LookupInsert(f, fs[1..], key);
      assert ([fs[0]] + Insert(f, fs[1..]))[1..] == Insert(f, fs[1..]);
    }
  }

  /** In an ascending list a key smaller than the first one does not occur. */
  lemma {:induction false} AscendingAbsent(fs: seq<Field>, key: string)
    requires Ascending(fs) && (fs == [] || Before(key, fs[0].key))
    ensures !HasKey(fs, key)
  {
    if fs != [] {
      BeforeAsymmetric(key, fs[0].key);
      if |fs| > 1 {
        BeforeTransitive(key, fs[0].key, fs[1].key);
      }
      AscendingAbsent(fs[1..], key);
    }
  }

  lemma {:induction false} AscendingDistinct(fs: seq<Field>)
    requires Ascending(fs)
    ensures Distinct(fs)
  {
    if fs != [] {
      AscendingDistinct(fs[1..]);
      AscendingAbsent(fs[1..], fs[0].key);
    }
  }

  lemma {:induction false} InsertAscending(f: Field, fs: seq<Field>)
    requires Ascending(fs) && !HasKey(fs, f.key)
    ensures Ascending(Insert(f, fs))
  {
    if fs == [] || Before(f.key, fs[0].key) {
      assert ([f] + fs)[1..] == fs;
    } else {
      BeforeTotal(f.key, fs[0].key);
      InsertAscending(f, fs[1..]);
      assert ([fs[0]] + Insert(f, fs[1..]))[1..] == Insert(f, fs[1..]);
    }
  }

  lemma AscendingHead(fs: seq<Field>, key: string)
    requires Ascending(fs) && HasKey(fs, key)
    ensures fs != [] && !Before(key, fs[0].key)
  {
    if fs != [] && Before(key, fs[0].key) {
      AscendingAbsent(fs, key);
    }
  }

  /** An ascending list is determined by what it maps each key to. */
  lemma {:induction false} AscendingUnique(s: seq<Field>, t: seq<Field>)
    requires Ascending(s) && Ascending(t)
    requires forall k :: Lookup(s, k) == Lookup(t, k)
    ensures s == t
  {
    if s == [] {
      assert Lookup(s, if t == [] then "" else t[0].key) == None;
    } else {
      assert Lookup(s, s[0].key) == Lookup(t, s[0].key);
      AscendingHead(t, s[0].key);
      assert Lookup(t, t[0].key) == Lookup(s, t[0].key);
      AscendingHead(s, t[0].key);
      BeforeTotal(s[0].key, t[0].key);
      AscendingDistinct(s);
      AscendingDistinct(t);
      forall k ensures Lookup(s[1..], k) == Lookup(t[1..], k) {
        assert Lookup(s, k) == Lookup(t, k);
      }
      AscendingUnique(s[1..], t[1..]);
      assert s == [s[0]] + s[1..] && t == [t[0]] + t[1..];
    }
  }

  // ---------- values ----------

  /** What the type `serde_json::Value` guarantees: numbers are 64-bit, keys do not repeat. */
  predicate WellFormed(v: Value) {
    match v
    case Num(n) => MIN_I64 <= n <= MAX_U64
    case Arr(items) => forall i | 0 <= i < |items| :: WellFormed(items[i])
    case Obj(fields) => Distinct(fields) && forall i | 0 <= i < |fields| :: WellFormed(fields[i].value)
    case _ => true
  }

  /** Equal up to the order of object keys, at every depth. */
  ghost predicate Same(a: Value, b: Value)
    decreases a
  {
    match (a, b)
    case (Arr(s), Arr(t)) => |s| == |t| && forall i | 0 <= i < |s| :: Same(s[i], t[i])
    case (Obj(f), Obj(g)) =>
      && (forall k :: HasKey(f, k) <==> HasKey(g, k))
      && forall i | 0 <= i < |f| && HasKey(g, f[i].key) :: Same(f[i].value, Lookup(g, f[i].key).value)
    case _ => a == b
  }

  /** Every object's keys sorted, at every depth. */
  function Sorted(v: Value): Value {
    match v
    case Arr(items) => Arr(SortedItems(items))
    case Obj(fields) => Obj(SortedFields(fields))
    case _ => v
  }

  function SortedItems(items: seq<Value>): (r: seq<Value>)
    ensures |r| == |items| && forall i | 0 <= i < |items| :: r[i] == Sorted(items[i])
  {
    if items == [] then [] else [Sorted(items[0])] + SortedItems(items[1..])
  }

  function SortedFields(fs: seq<Field>): seq<Field> {
    if fs == [] then [] else Insert(Field(fs[0].key, Sorted(fs[0].value)), SortedFields(fs[1..]))
  }

  /** Nesting depth: 0 for a scalar. */
  function Depth(v: Value): nat {
    match v
    case Arr(items) => 1 + ItemsDepth(items)
    case Obj(fields) => 1 + FieldsDepth(fields)
    case _ => 0
  }

  function ItemsDepth(items: seq<Value>): nat {
    if items == [] then 0 else Max(Depth(items[0]), ItemsDepth(items[1..]))
  }

  function FieldsDepth(fs: seq<Field>): nat {
    if fs == [] then 0 else Max(Depth(fs[0].value), FieldsDepth(fs[1..]))
  }

  function Max(a: nat, b: nat): nat {
    if a < b then b else a
  }

  /** A value as the parser builds it: objects are maps iterated in key order. */
  predicate Normal(v: Value) {
    match v
    case Num(n) => MIN_I64 <= n <= MAX_U64
    case Arr(items) => forall i | 0 <= i < |items| :: Normal(items[i])
    case Obj(fields) => Ascending(fields) && forall i | 0 <= i < |fields| :: Normal(fields[i].value)
    case _ => true
  }

  // ---------- reading fields, as derived deserialisers do ----------

  predicate OnlyKeys(fs: seq<Field>, allowed: set<string>) {
    forall i | 0 <= i < |fs| :: fs[i].key in allowed
  }

  function AsString(v: Option<Value>): Option<string> {
    match v
    case Some(Str(s)) => Some(s)
    case _ => None
  }

  function AsU64(v: Option<Value>): Option<nat> {
    match v
    case Some(Num(n)) => if 0 <= n then Some(n) else None
    case _ => None
  }

  function AsArray(v: Option<Value>): Option<seq<Value>> {
    match v
    case Some(Arr(items)) => Some(items)
    case _ => None
  }
}
