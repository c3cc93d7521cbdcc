/** All JSON texts of a value: any white space between tokens, any spelling of strings, keys in any order and
    repeated; and the parser reads exactly those that are not nested too deeply. */
module JsonGrammar {
  import opened Wrappers
  import opened Json
  import opened JsonText
  import opened JsonRoundTrip
  import opened Text
  import opened StringGrammar

  // ---------- trees ----------

  /** The tokens of a text, in their order. A list or record without members has a gap instead. */
  datatype Tree =
    | Word(v: Value)
    | Quoted(parts: seq<string>, s: string)
    | List(items: seq<Item>, gap: string)
    | Record(entries: seq<Entry>, gap: string)

  datatype Item = Item(before: string, tree: Tree, after: string)

  datatype Entry = Entry(before: string, parts: seq<string>, key: string, colon: string, item: Item)

  predicate Blank(s: string) {
    forall c | c in s :: c == ' ' || c == '\t' || c == '\n' || c == '\r'
  }

  function WordText(v: Value): string {
    match v
    case Null => "null"
    case Bool(b) => if b then "true" else "false"
    case Num(n) => if n < 0 then "-" + Digits(-n) else Digits(n)
    case _ => ""
  }

  function Spelled(t: Tree): string {
    match t
    case Word(v) => WordText(v)
    case Quoted(parts, _) => "\"" + (Joined(parts) + "\"")
    case List(items, gap) => "[" + (ItemsSpelled(items, gap) + "]")
    case Record(entries, gap) => "{" + (EntriesSpelled(entries, gap) + "}")
  }

  function ItemSpelled(i: Item): string {
    i.before + (Spelled(i.tree) + i.after)
  }

  function ItemsSpelled(items: seq<Item>, gap: string): string {
    if items == [] then gap
    else if |items| == 1 then ItemSpelled(items[0])
    else ItemSpelled(items[0]) + ("," + ItemsSpelled(items[1..], gap))
  }

  function EntrySpelled(e: Entry): string {
    e.before + ("\"" + (Joined(e.parts) + ("\"" + (e.colon + (":" + ItemSpelled(e.item))))))
  }

  function EntriesSpelled(es: seq<Entry>, gap: string): string {
    if es == [] then gap
    else if |es| == 1 then EntrySpelled(es[0])
    else EntrySpelled(es[0]) + ("," + EntriesSpelled(es[1..], gap))
  }

  predicate Proper(t: Tree) {
    match t
    case Word(v) => v.Null? || v.Bool? || (v.Num? && -0x8000_0000_0000_0000 <= v.n <= 0xFFFF_FFFF_FFFF_FFFF)
    case Quoted(parts, s) => SpellsAll(parts, s)
    case List(items, gap) => Blank(gap) && forall i | 0 <= i < |items| :: ProperItem(items[i])
    case Record(es, gap) => Blank(gap) && forall i | 0 <= i < |es| :: ProperEntry(es[i])
  }

  predicate ProperItem(i: Item) {
    Blank(i.before) && Proper(i.tree) && Blank(i.after)
  }

  predicate ProperEntry(e: Entry) {
    Blank(e.before) && SpellsAll(e.parts, e.key) && Blank(e.colon) && ProperItem(e.item)
  }

  // ---------- what a tree means ----------

  function Meaning(t: Tree): Value {
    match t
    case Word(v) => v
    case Quoted(_, s) => Str(s)
    case List(items, _) => Arr(Meanings(items))
    case Record(es, _) => Obj(Collected(es))
  }

  function Meanings(items: seq<Item>): (r: seq<Value>)
    ensures |r| == |items| && forall i | 0 <= i < |r| :: r[i] == Meaning(items[i].tree)
  {
    if items == [] then [] else [Meaning(items[0].tree)] + Meanings(items[1..])
  }

  /** In the order of keys; of entries with equal keys the last one counts. */
  function Collected(es: seq<Entry>): seq<Field> {
    if es == [] then []
    else
      var later := Collected(es[1..]);
      if HasKey(later, es[0].key) then later else Insert(Field(es[0].key, Meaning(es[0].item.tree)), later)
  }

  /** Nesting of the text, including entries that do not count. */
  function Nesting(t: Tree): nat {
    match t
    case List(items, _) => 1 + ItemsNesting(items)
    case Record(es, _) => 1 + EntriesNesting(es)
    case _ => 0
  }

  function ItemsNesting(items: seq<Item>): nat {
    if items == [] then 0 else Max(Nesting(items[0].tree), ItemsNesting(items[1..]))
  }

  function EntriesNesting(es: seq<Entry>): nat {
    if es == [] then 0 else Max(Nesting(es[0].item.tree), EntriesNesting(es[1..]))
  }

  /** The last entry of a key is the one that counts. */
  lemma {:induction false} LastCounts(es: seq<Entry>, i: nat)
    requires i < |es| && forall j | i < j < |es| :: es[j].key != es[i].key
    ensures Lookup(Collected(es), es[i].key) == Some(Meaning(es[i].item.tree))
  {
    CollectedKeys(es[1..]);
    var later := Collected(es[1..]);
    if i == 0 {
      assert forall e | e in es[1..] :: e.key != es[0].key;
      LookupInsert(Field(es[0].key, Meaning(es[0].item.tree)), later, es[0].key);
    } else {
      LastCounts(es[1..], i - 1);
      if !HasKey(later, es[0].key) {
        LookupInsert(Field(es[0].key, Meaning(es[0].item.tree)), later, es[i].key);
      }
    }
  }

  lemma {:induction false} CollectedKeys(es: seq<Entry>)
    ensures Ascending(Collected(es)) && forall k :: HasKey(Collected(es), k) <==> exists e :: e in es && e.key == k
  {
    if es != [] {
      CollectedKeys(es[1..]);
      var f, later := Field(es[0].key, Meaning(es[0].item.tree)), Collected(es[1..]);
      assert forall e :: e in es <==> e == es[0] || e in es[1..];
      if !HasKey(later, f.key) {
        InsertAscending(f, later);
        forall k ensures HasKey(Insert(f, later), k) <==> k == f.key || HasKey(later, k) {
          LookupInsert(f, later, k);
        }
      }
    }
  }

  // ---------- every text is read ----------

  lemma {:induction false} BlankSkips(before: string, s: string)
    requires Blank(before)
    ensures SkipWs(before + s) == SkipWs(s)
  {
    if before == "" {
      assert before + s == s;
    } else {
      assert before[0] in before && (before + s)[1..] == before[1..] + s;
      assert forall c | c in before[1..] :: c in before;
      BlankSkips(before[1..], s);
    }
  }

  /** White space and then something else, which ends a number. */
  lemma BlankThen(after: string, rest: string)
    requires Blank(after) && rest != "" && !IsWs(rest[0]) && !ExtendsNumber(rest[0])
    ensures SkipWs(after + rest) == rest && NumberEnds(after + rest)
  {
    BlankSkips(after, rest);
    if after != "" {
      assert (after + rest)[0] == after[0] && after[0] in after;
    } else {
      assert after + rest == rest;
    }
  }

  lemma SpelledHead(t: Tree)
    requires Proper(t)
    ensures Spelled(t) != "" && !IsWs(Spelled(t)[0]) && Spelled(t)[0] != ']' && Spelled(t)[0] != '}'
  {
  }

  lemma SkipToTree(before: string, t: Tree, k: string)
    requires Blank(before) && Proper(t)
    ensures SkipWs(before + (Spelled(t) + k)) == Spelled(t) + k
  {
    SpelledHead(t);
    BlankSkips(before, Spelled(t) + k);
    assert (Spelled(t) + k)[0] == Spelled(t)[0];
  }

  /** White space before a value does not matter. */
  lemma ParseSkipped(text: string, depth: nat)
    ensures SkipWs(SkipWs(text)) == SkipWs(text)
    ensures ParseValue(text, depth) == ParseValue(SkipWs(text), depth)
  {
  }

  lemma WordReads(v: Value, k: string, depth: nat)
    requires Proper(Word(v)) && NumberEnds(k)
    ensures ParseValue(WordText(v) + k, depth) == Some((v, k))
  {
    assert WordText(v) == Compact(v);
    ScalarParses(v, k, depth);
  }

  lemma QuotedReads(parts: seq<string>, s: string, k: string, depth: nat)
    requires SpellsAll(parts, s)
    ensures ParseValue("\"" + (Joined(parts) + "\"") + k, depth) == Some((Str(s), k))
  {
    var text := "\"" + (Joined(parts) + "\"") + k;
    assert SkipWs(text) == text;
    assert text[1..] == Joined(parts) + ("\"" + k);
    SpellingReads(parts, s, k);
  }

  /** Every text of a tree is read as its meaning, and what follows is left, exactly when it is not nested too
      deeply. */
  lemma {:induction false} TreeReads(t: Tree, k: string, depth: nat)
    requires Proper(t) && NumberEnds(k) && depth > 0
    ensures ParseValue(Spelled(t) + k, depth) == if Nesting(t) < depth then Some((Meaning(t), k)) else None
    decreases t, 2
  {
    match t
    case Word(v) => WordReads(v, k, depth);
    case Quoted(parts, s) => QuotedReads(parts, s, k, depth);
    case List(items, gap) =>
      assert Spelled(t) + k == "[" + (ItemsSpelled(items, gap) + ("]" + k));
      ContainerStep('[', ItemsSpelled(items, gap) + ("]" + k), depth);
      if depth > 1 { ListReads(items, gap, k, depth - 1); }
    case Record(es, gap) =>
      assert Spelled(t) + k == "{" + (EntriesSpelled(es, gap) + ("}" + k));
      ContainerStep('{', EntriesSpelled(es, gap) + ("}" + k), depth);
      if depth > 1 { RecordReads(es, gap, k, depth - 1); }
  }

  lemma {:induction false} ListReads(items: seq<Item>, gap: string, k: string, depth: nat)
    requires (forall i | 0 <= i < |items| :: ProperItem(items[i])) && Blank(gap) && depth > 0
    ensures ParseArray(ItemsSpelled(items, gap) + ("]" + k), depth) ==
            if ItemsNesting(items) < depth then Some((Arr(Meanings(items)), k)) else None
    decreases items, 1
  {
    var text := ItemsSpelled(items, gap) + ("]" + k);
    if items == [] {
      BlankThen(gap, "]" + k);
      assert ("]" + k)[1..] == k;
    } else {
      ItemsHead(items, gap, "]" + k);
      ItemsRead(items, gap, k, depth);
      ItemsSkipped(text, depth);
    }
  }

  lemma ItemsSkipped(text: string, depth: nat)
    ensures ParseItems(SkipWs(text), depth) == ParseItems(text, depth)
  {
    ParseSkipped(text, depth);
  }

  lemma ItemsHead(items: seq<Item>, gap: string, k: string)
    requires items != [] && ProperItem(items[0])
    ensures var s := SkipWs(ItemsSpelled(items, gap) + k); s != "" && s[0] != ']'
  {
    var i := items[0];
    var more := i.after + (if |items| == 1 then k else "," + ItemsSpelled(items[1..], gap) + k);
    SplitItem(i.before, Spelled(i.tree), i.after, if |items| == 1 then k else "," + ItemsSpelled(items[1..], gap) + k);
    assert ItemsSpelled(items, gap) + k == i.before + (Spelled(i.tree) + more);
    SkipToTree(i.before, i.tree, more);
    SpelledHead(i.tree);
  }

  lemma SplitItem(before: string, t: string, after: string, k: string)
    ensures before + (t + after) + k == before + (t + (after + k))
  {
    Regroup(before, t + after, k);
    Regroup(t, after, k);
  }

  /** Reading one item and what follows it. */
  lemma {:induction false} ItemReads(i: Item, rest: string, depth: nat)
    requires ProperItem(i) && rest != "" && !IsWs(rest[0]) && !ExtendsNumber(rest[0]) && depth > 0
    ensures var r := ParseValue(ItemSpelled(i) + rest, depth);
            && r == (if Nesting(i.tree) < depth then Some((Meaning(i.tree), i.after + rest)) else None)
            && SkipWs(i.after + rest) == rest
    decreases i, 3
  {
    BlankThen(i.after, rest);
    SplitItem(i.before, Spelled(i.tree), i.after, rest);
    SkipToTree(i.before, i.tree, i.after + rest);
    ParseSkipped(ItemSpelled(i) + rest, depth);
    ParseSkipped(Spelled(i.tree) + (i.after + rest), depth);
    TreeReads(i.tree, i.after + rest, depth);
  }

  lemma {:induction false} ItemsRead(items: seq<Item>, gap: string, k: string, depth: nat)
    requires items != [] && (forall i | 0 <= i < |items| :: ProperItem(items[i])) && depth > 0
    ensures ParseItems(ItemsSpelled(items, gap) + ("]" + k), depth) ==
            if ItemsNesting(items) < depth then Some((Meanings(items), k)) else None
    decreases items, 0
  {
    var tail := ItemsSpelled(items[1..], gap) + ("]" + k);
    var rest := if |items| == 1 then "]" + k else "," + tail;
    assert ItemsSpelled(items, gap) + ("]" + k) == ItemSpelled(items[0]) + rest;
    ItemReads(items[0], rest, depth);
    if |items| == 1 {
      assert rest[1..] == k && items[1..] == [] && Meanings(items) == [Meaning(items[0].tree)];
    } else {
      assert rest[1..] == tail;
      ItemsRead(items[1..], gap, k, depth);
    }
  }

  lemma {:induction false} RecordReads(es: seq<Entry>, gap: string, k: string, depth: nat)
    requires (forall i | 0 <= i < |es| :: ProperEntry(es[i])) && Blank(gap) && depth > 0
    ensures ParseObject(EntriesSpelled(es, gap) + ("}" + k), depth) ==
            if EntriesNesting(es) < depth then Some((Obj(Collected(es)), k)) else None
    decreases es, 1
  {
    var text := EntriesSpelled(es, gap) + ("}" + k);
    if es == [] {
      BlankThen(gap, "}" + k);
      assert ("}" + k)[1..] == k;
    } else {
      EntriesHead(es, gap, "}" + k);
      EntriesRead(es, gap, k, depth);
      FieldsSkipped(text, depth);
    }
  }

  lemma FieldsSkipped(text: string, depth: nat)
    ensures ParseFields(SkipWs(text), depth) == ParseFields(text, depth)
  {
    ParseSkipped(text, depth);
  }

  /** An entry from its opening quote on, with what follows it. */
  function FromKey(e: Entry, rest: string): string {
    "\"" + (Joined(e.parts) + ("\"" + (e.colon + (":" + (ItemSpelled(e.item) + rest)))))
  }

  lemma EntryFromKey(e: Entry, rest: string)
    requires ProperEntry(e)
    ensures EntrySpelled(e) + rest == e.before + FromKey(e, rest)
    ensures SkipWs(EntrySpelled(e) + rest) == FromKey(e, rest)
  {
    var item := ItemSpelled(e.item);
    Regroup(":", item, rest);
    Regroup(e.colon, ":" + item, rest);
    Regroup("\"", e.colon + (":" + item), rest);
    Regroup(Joined(e.parts), "\"" + (e.colon + (":" + item)), rest);
    Regroup("\"", Joined(e.parts) + ("\"" + (e.colon + (":" + item))), rest);
    Regroup(e.before, "\"" + (Joined(e.parts) + ("\"" + (e.colon + (":" + item)))), rest);
    BlankSkips(e.before, FromKey(e, rest));
  }

  lemma EntriesHead(es: seq<Entry>, gap: string, k: string)
    requires es != [] && ProperEntry(es[0])
    ensures var s := SkipWs(EntriesSpelled(es, gap) + k); s != "" && s[0] != '}'
  {
    var rest := if |es| == 1 then k else "," + EntriesSpelled(es[1..], gap) + k;
    assert EntriesSpelled(es, gap) + k == EntrySpelled(es[0]) + rest;
    EntryFromKey(es[0], rest);
  }

  /** Reading the key of an entry. */
  lemma KeyReads(e: Entry, rest: string)
    requires ProperEntry(e)
    ensures var s := SkipWs(EntrySpelled(e) + rest);
            && s != "" && s[0] == '"' && ParseStr(s[1..]).Some?
            && var (key, afterKey) := ParseStr(s[1..]).value;
            && key == e.key && SkipWs(afterKey) == ":" + (ItemSpelled(e.item) + rest)
  {
    EntryFromKey(e, rest);
    var value := ":" + (ItemSpelled(e.item) + rest);
    assert FromKey(e, rest)[1..] == Joined(e.parts) + ("\"" + (e.colon + value));
    SpellingReads(e.parts, e.key, e.colon + value);
    BlankThen(e.colon, value);
  }

  /** One step of the parser on an entry. */
  lemma {:induction false} EntryStep(e: Entry, rest: string, depth: nat)
    requires ProperEntry(e) && rest != "" && (rest[0] == ',' || rest[0] == '}') && depth > 0
    ensures var r := ParseFields(EntrySpelled(e) + rest, depth);
            var field := Field(e.key, Meaning(e.item.tree));
            if Nesting(e.item.tree) >= depth then r == None
            else if rest[0] == '}' then r == Some(([field], rest[1..]))
            else match ParseFields(rest[1..], depth)
                 case None => r == None
                 case Some((fields, end)) =>
                   r == Some((if HasKey(fields, e.key) then fields else Insert(field, fields), end))
    decreases e, 4
  {
    KeyReads(e, rest);
    var colon := ":" + (ItemSpelled(e.item) + rest);
    assert colon[1..] == ItemSpelled(e.item) + rest;
    ItemReads(e.item, rest, depth);
  }

  lemma {:induction false} EntriesRead(es: seq<Entry>, gap: string, k: string, depth: nat)
    requires es != [] && (forall i | 0 <= i < |es| :: ProperEntry(es[i])) && depth > 0
    ensures ParseFields(EntriesSpelled(es, gap) + ("}" + k), depth) ==
            if EntriesNesting(es) < depth then Some((Collected(es), k)) else None
    decreases es, 0
  {
    var tail := EntriesSpelled(es[1..], gap) + ("}" + k);
    var rest := if |es| == 1 then "}" + k else "," + tail;
    assert EntriesSpelled(es, gap) + ("}" + k) == EntrySpelled(es[0]) + rest;
    EntryStep(es[0], rest, depth);
    if |es| == 1 {
      assert rest[1..] == k && es[1..] == [] && Collected(es) == [Field(es[0].key, Meaning(es[0].item.tree))];
    } else {
      assert rest[1..] == tail;
      EntriesRead(es[1..], gap, k, depth);
    }
  }

  // ---------- and nothing else is ----------

  lemma {:induction false} SkippedIsBlank(s: string) returns (before: string)
    ensures Blank(before) && s == before + SkipWs(s)
  {
    if s == "" || !IsWs(s[0]) {
      before := "";
      assert "" + s == s;
    } else {
      var rest := SkippedIsBlank(s[1..]);
      before := [s[0]] + rest;
      assert s == [s[0]] + s[1..];
      Regroup([s[0]], rest, SkipWs(s));
    }
  }

  lemma NatRead(s: string)
    requires ParseNat(s).Some?
    ensures var (n, rest) := ParseNat(s).value; s == Digits(n) + rest
  {
    var d := DigitValue(s[0]);
    assert DigitChar(d) == s[0] && s == [s[0]] + s[1..];
    if d > 0 {
      ReadShows(s[1..], d);
    }
  }

  lemma NumberRead(s: string)
    requires s != "" && ParseNumber(s).Some?
    ensures var (v, rest) := ParseNumber(s).value; Proper(Word(v)) && v.Num? && s == WordText(v) + rest
  {
    if s[0] == '-' {
      NatRead(s[1..]);
      assert s == "-" + s[1..];
      Regroup("-", Digits(ParseNat(s[1..]).value.0), ParseNat(s[1..]).value.1);
    } else {
      NatRead(s);
    }
  }

  lemma WordRead(s: string, depth: nat)
    requires s != "" && !IsWs(s[0]) && s[0] != '"' && s[0] != '[' && s[0] != '{' && ParseValue(s, depth).Some?
    ensures var (v, rest) := ParseValue(s, depth).value; Proper(Word(v)) && s == WordText(v) + rest
  {
    assert SkipWs(s) == s;
    if s[0] == '-' || IsDigit(s[0]) {
      NumberRead(s);
    } else if "null" <= s {
      assert s == "null" + s[4..];
    } else if "true" <= s {
      assert s == "true" + s[4..];
    } else {
      assert s == "false" + s[5..];
    }
  }

  lemma QuotedRead(s: string, depth: nat) returns (t: Tree)
    requires s != "" && s[0] == '"' && ParseValue(s, depth).Some?
    ensures var (v, rest) := ParseValue(s, depth).value;
            Proper(t) && Meaning(t) == v && s == Spelled(t) + rest && Nesting(t) == 0
  {
    var parts := SpellingRead(s[1..]);
    var (v, rest) := ParseStr(s[1..]).value;
    t := Quoted(parts, v);
    assert s == "\"" + s[1..];
    Regroup(Joined(parts), "\"", rest);
    Regroup("\"", Joined(parts) + "\"", rest);
  }

  lemma Wrapped(open: string, inner: string, close: string, k: string)
    ensures open + (inner + close + k) == open + (inner + close) + k
  {
    Regroup(open, inner + close, k);
  }

  lemma FromList(s: string, depth: nat, t: Tree, rest: string)
    requires s != "" && s[0] == '[' && depth > 1 && t.List?
    requires ParseArray(s[1..], depth - 1) == Some((Meaning(t), rest))
    requires s[1..] == ItemsSpelled(t.items, t.gap) + "]" + rest
    ensures SkipWs(s) == s && ParseValue(s, depth) == Some((Meaning(t), rest)) && s == Spelled(t) + rest
  {
    assert s == "[" + s[1..];
    Wrapped("[", ItemsSpelled(t.items, t.gap), "]", rest);
  }

  lemma FromRecord(s: string, depth: nat, t: Tree, rest: string)
    requires s != "" && s[0] == '{' && depth > 1 && t.Record?
    requires ParseObject(s[1..], depth - 1) == Some((Meaning(t), rest))
    requires s[1..] == EntriesSpelled(t.entries, t.gap) + "}" + rest
    ensures SkipWs(s) == s && ParseValue(s, depth) == Some((Meaning(t), rest)) && s == Spelled(t) + rest
  {
    assert s == "{" + s[1..];
    Wrapped("{", EntriesSpelled(t.entries, t.gap), "}", rest);
  }

  /** Whatever is read as a value is a text of it. */
  lemma {:induction false} TreeRead(text: string, depth: nat) returns (before: string, t: Tree)
    requires depth > 0 && ParseValue(text, depth).Some?
    ensures var (v, rest) := ParseValue(text, depth).value;
            && Blank(before) && Proper(t) && Meaning(t) == v && Nesting(t) < depth
            && text == before + (Spelled(t) + rest)
    decreases |text|, 0
  {
    before := SkippedIsBlank(text);
    var s := SkipWs(text);
    ParseSkipped(text, depth);
    if s[0] == '"' {
      t := QuotedRead(s, depth);
    } else if s[0] == '[' {
      t := ListRead(s[1..], depth - 1);
      FromList(s, depth, t, ParseArray(s[1..], depth - 1).value.1);
    } else if s[0] == '{' {
      t := RecordRead(s[1..], depth - 1);
      FromRecord(s, depth, t, ParseObject(s[1..], depth - 1).value.1);
    } else {
      WordRead(s, depth);
      t := Word(ParseValue(s, depth).value.0);
    }
  }

  lemma {:induction false} ListRead(text: string, depth: nat) returns (t: Tree)
    requires depth > 0 && ParseArray(text, depth).Some?
    ensures var (v, rest) := ParseArray(text, depth).value;
            && t.List? && Proper(t) && Meaning(t) == v && ItemsNesting(t.items) < depth
            && text == ItemsSpelled(t.items, t.gap) + "]" + rest
    decreases |text|, 2
  {
    var gap := SkippedIsBlank(text);
    var inner := SkipWs(text);
    if inner != "" && inner[0] == ']' {
      t := List([], gap);
      GapThenClose(text, gap, inner, ']');
    } else {
      ItemsSkipped(text, depth);
      var items := ItemsReadBack(text, depth);
      t := List(items, "");
    }
  }

  lemma {:induction false} ItemsReadBack(text: string, depth: nat) returns (items: seq<Item>)
    requires depth > 0 && ParseItems(text, depth).Some?
    ensures var (vs, rest) := ParseItems(text, depth).value;
            && items != [] && (forall i | 0 <= i < |items| :: ProperItem(items[i]))
            && Meanings(items) == vs && ItemsNesting(items) < depth
            && text == ItemsSpelled(items, "") + "]" + rest
    decreases |text|, 1
  {
    var before, t := TreeRead(text, depth);
    var (v, behind) := ParseValue(text, depth).value;
    var after := SkippedIsBlank(behind);
    var rest := SkipWs(behind);
    var item := Item(before, t, after);
    SplitItem(before, Spelled(t), after, rest);
    if rest[0] == ']' {
      items := [item];
      GapThenClose(text, ItemSpelled(item), rest, ']');
    } else {
      var later := ItemsReadBack(rest[1..], depth);
      items := [item] + later;
      assert items[1..] == later;
      Behind(rest, ',');
      JoinMembers(ItemSpelled(item), ItemsSpelled(later, ""), "]", ParseItems(text, depth).value.1);
    }
  }

  lemma JoinMembers(a: string, b: string, close: string, k: string)
    ensures a + ("," + (b + close + k)) == a + ("," + b) + close + k
  {
    assert "," + (b + close + k) == ("," + b) + close + k;
    Regroup(a, "," + b, close);
    Regroup(a, ("," + b) + close, k);
  }

  lemma {:induction false} RecordRead(text: string, depth: nat) returns (t: Tree)
    requires depth > 0 && ParseObject(text, depth).Some?
    ensures var (v, rest) := ParseObject(text, depth).value;
            && t.Record? && Proper(t) && Meaning(t) == v && EntriesNesting(t.entries) < depth
            && text == EntriesSpelled(t.entries, t.gap) + "}" + rest
    decreases |text|, 2
  {
    var gap := SkippedIsBlank(text);
    var inner := SkipWs(text);
    if inner != "" && inner[0] == '}' {
      t := Record([], gap);
      GapThenClose(text, gap, inner, '}');
    } else {
      FieldsSkipped(text, depth);
      var es := EntriesReadBack(text, depth);
      t := Record(es, "");
    }
  }

  /** The key of an entry, read back. */
  lemma KeyReadBack(text: string) returns (before: string, parts: seq<string>, colon: string)
    requires var s := SkipWs(text); s != "" && s[0] == '"' && ParseStr(s[1..]).Some?
    ensures var (key, afterKey) := ParseStr(SkipWs(text)[1..]).value;
            && Blank(before) && SpellsAll(parts, key) && Blank(colon)
            && text == before + ("\"" + (Joined(parts) + ("\"" + (colon + SkipWs(afterKey)))))
  {
    before := SkippedIsBlank(text);
    var s := SkipWs(text);
    parts := SpellingRead(s[1..]);
    var afterKey := ParseStr(s[1..]).value.1;
    colon := SkippedIsBlank(afterKey);
    Behind(s, '"');
    KeyText(text, before, s, s[1..], Joined(parts), afterKey, colon, SkipWs(afterKey));
  }

  lemma Behind(s: string, c: char)
    requires s != "" && s[0] == c
    ensures s == [c] + s[1..]
  {
  }

  lemma KeyText(text: string, before: string, s: string, tail: string, key: string, afterKey: string, colon: string,
                rest: string)
    requires text == before + s && s == "\"" + tail && tail == key + ("\"" + afterKey) && afterKey == colon + rest
    ensures text == before + ("\"" + (key + ("\"" + (colon + rest))))
  {
  }

  lemma GapThenClose(text: string, gap: string, inner: string, close: char)
    requires text == gap + inner && inner != "" && inner[0] == close
    ensures text == gap + [close] + inner[1..]
  {
    Behind(inner, close);
    Regroup(gap, [close], inner[1..]);
  }

  /** The first entry, read back. */
  lemma {:induction false} EntryReadBack(text: string, depth: nat) returns (e: Entry)
    requires depth > 0 && ParseFields(text, depth).Some?
    ensures var colon := SkipWs(ParseStr(SkipWs(text)[1..]).value.1);
            var (v, behind) := ParseValue(colon[1..], depth).value;
            && ProperEntry(e) && e.key == ParseStr(SkipWs(text)[1..]).value.0 && Meaning(e.item.tree) == v
            && Nesting(e.item.tree) < depth && text == EntrySpelled(e) + SkipWs(behind)
    decreases |text|, 0
  {
    var before, parts, gap := KeyReadBack(text);
    var (key, afterKey) := ParseStr(SkipWs(text)[1..]).value;
    var colon := SkipWs(afterKey);
    var between, t := TreeRead(colon[1..], depth);
    var behind := ParseValue(colon[1..], depth).value.1;
    var after := SkippedIsBlank(behind);
    e := Entry(before, parts, key, gap, Item(between, t, after));
    SplitItem(between, Spelled(t), after, SkipWs(behind));
    Behind(colon, ':');
    EntryText(e, text, colon, colon[1..], SkipWs(behind));
  }

  lemma EntryText(e: Entry, text: string, colon: string, value: string, rest: string)
    requires ProperEntry(e) && colon == ":" + value && value == ItemSpelled(e.item) + rest
    requires text == e.before + ("\"" + (Joined(e.parts) + ("\"" + (e.colon + colon))))
    ensures text == EntrySpelled(e) + rest
  {
    EntryFromKey(e, rest);
  }

  lemma {:induction false} EntriesReadBack(text: string, depth: nat) returns (es: seq<Entry>)
    requires depth > 0 && ParseFields(text, depth).Some?
    ensures var (fields, rest) := ParseFields(text, depth).value;
            && es != [] && (forall i | 0 <= i < |es| :: ProperEntry(es[i]))
            && Collected(es) == fields && EntriesNesting(es) < depth
            && text == EntriesSpelled(es, "") + "}" + rest
    decreases |text|, 1
  {
    var e := EntryReadBack(text, depth);
    var colon := SkipWs(ParseStr(SkipWs(text)[1..]).value.1);
    var rest := SkipWs(ParseValue(colon[1..], depth).value.1);
    if rest[0] == '}' {
      es := [e];
      GapThenClose(text, EntrySpelled(e), rest, '}');
    } else {
      var later := EntriesReadBack(rest[1..], depth);
      es := [e] + later;
      assert es[1..] == later;
      Behind(rest, ',');
      JoinMembers(EntrySpelled(e), EntriesSpelled(later, ""), "}", ParseFields(text, depth).value.1);
    }
  }

  /** The text is one of the tree, between white space. */
  predicate TextOf(text: string, before: string, t: Tree, after: string) {
    Blank(before) && Proper(t) && Blank(after) && text == before + (Spelled(t) + after)
  }

  /** A text is read as a value exactly when it is a text of that value, in whatever spelling, order of keys and
      white space, nested less than 128 deep. */
  lemma FromStrIff(text: string, v: Value)
    ensures FromStr(text) == Some(v) <==>
            exists before, t, after :: TextOf(text, before, t, after) && Meaning(t) == v && Nesting(t) < 128
  {
    if FromStr(text) == Some(v) {
      var before, t := TreeRead(text, RECURSION_LIMIT);
      var rest := ParseValue(text, RECURSION_LIMIT).value.1;
      var after := SkippedIsBlank(rest);
      assert after + "" == after;
      assert TextOf(text, before, t, after);
    }
    if before, t, after :| TextOf(text, before, t, after) && Meaning(t) == v && Nesting(t) < RECURSION_LIMIT {
      TextIsRead(text, before, t, after);
    }
  }

  lemma TextParses(text: string, before: string, t: Tree, after: string, depth: nat)
    requires TextOf(text, before, t, after) && depth > 0
    ensures ParseValue(text, depth) == if Nesting(t) < depth then Some((Meaning(t), after)) else None
    ensures SkipWs(text) == Spelled(t) + after && SkipWs(after) == ""
  {
    SkipToTree(before, t, after);
    ParseSkipped(text, depth);
    ParseSkipped(Spelled(t) + after, depth);
    assert after != "" ==> after[0] in after;
    TreeReads(t, after, depth);
    BlankSkips(after, "");
    assert after + "" == after;
  }

  lemma TextIsRead(text: string, before: string, t: Tree, after: string)
    requires TextOf(text, before, t, after)
    ensures FromStr(text) == if Nesting(t) < RECURSION_LIMIT then Some(Meaning(t)) else None
  {
    TextParses(text, before, t, after, RECURSION_LIMIT);
  }
}
