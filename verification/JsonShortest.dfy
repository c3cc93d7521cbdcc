/** The printed text is the shortest one, and the only one of that length with keys in order and hex digits in
    lower case: this fixes every character of canonical text by what it must read back as. */
module JsonShortest {
  import opened Wrappers
  import opened Json
  import opened JsonOrder
  import opened JsonText
  import opened JsonRoundTrip
  import opened Text
  import opened StringGrammar
  import opened JsonGrammar
  import opened Canonical

  // ---------- strings ----------

  predicate Capital(h: char) {
    'A' <= h <= 'F'
  }

  /** No capital among the hex digits of the escapes. */
  predicate LowerEscapes(t: string) {
    if t == "" then true
    else if t[0] != '\\' || |t| < 2 then LowerEscapes(t[1..])
    else if t[1] != 'u' || |t| < 6 then LowerEscapes(t[2..])
    else !Capital(t[2]) && !Capital(t[3]) && !Capital(t[4]) && !Capital(t[5]) && LowerEscapes(t[6..])
  }

  /** The printer's spelling of a character. */
  lemma EscapeSpells(c: char)
    ensures Spells(Escape(c), c)
  {
    if c < ' ' && |Escape(c)| > 2 {
      var n := c as int;
      assert n / 0x1000 == 0 && n / 0x100 % 0x10 == 0 && n / 0x10 % 0x10 == n / 0x10;
      assert UnitOf(Escape(c), n);
    }
  }

  /** Every other spelling is longer, or has a capital. */
  lemma EscapeIsShortest(t: string, c: char)
    requires Spells(t, c)
    ensures |Escape(c)| <= |t|
    ensures |Escape(c)| == |t| && (|t| == 6 ==> !Capital(t[4]) && !Capital(t[5])) ==> t == Escape(c)
  {
    if UnitOf(t, c as int) && |Escape(c)| == 6 {
      var n := c as int;
      assert n / 0x1000 == 0 && n / 0x100 % 0x10 == 0 && n / 0x10 % 0x10 == n / 0x10;
    }
  }

  lemma LowerParts(t: string, c: char, rest: string)
    requires Spells(t, c) && LowerEscapes(t + rest)
    ensures LowerEscapes(rest) && (|t| == 6 ==> !Capital(t[4]) && !Capital(t[5]))
  {
    var s := t + rest;
    if |t| == 1 {
      assert s[1..] == rest;
    } else if |t| == 2 {
      assert s[2..] == rest;
    } else if |t| == 6 {
      assert s[6..] == rest;
    } else {
      var low := t[6..] + rest;
      assert s[6..] == low && low[6..] == rest && low[0] == '\\' && low[1] == 'u';
    }
  }

  lemma {:induction false} PartsAreLonger(parts: seq<string>, s: string, k: string)
    requires SpellsAll(parts, s)
    ensures |EscapeAll(s)| <= |Joined(parts)|
    ensures |EscapeAll(s)| == |Joined(parts)| && LowerEscapes(Joined(parts) + k) ==> Joined(parts) == EscapeAll(s)
  {
    if s != "" {
      EscapeIsShortest(parts[0], s[0]);
      PartsAreLonger(parts[1..], s[1..], k);
      if LowerEscapes(Joined(parts) + k) {
        Regroup(parts[0], Joined(parts[1..]), k);
        LowerParts(parts[0], s[0], Joined(parts[1..]) + k);
      }
    }
  }

  /** The printer writes a string as the shortest text that reads back, and no other text of that length reads
      back but with a capital in an escape. */
  lemma StringIsShortest(s: string, t: string)
    requires ParseStr(t + "\"") == Some((s, ""))
    ensures |EscapeAll(s)| <= |t|
    ensures |EscapeAll(s)| == |t| && LowerEscapes(t) ==> t == EscapeAll(s)
  {
    var parts := SpellingRead(t + "\"");
    var joined := Joined(parts);
    assert "\"" + "" == "\"";
    assert t == (t + "\"")[..|t|] == (joined + "\"")[..|joined|] == joined;
    assert joined + "" == joined;
    PartsAreLonger(parts, s, "");
  }

  // ---------- values ----------

  /** Hex digits in lower case, and keys in ascending order. */
  predicate Tidy(t: Tree) {
    match t
    case Word(_) => true
    case Quoted(parts, _) => LowerEscapes(Joined(parts))
    case List(items, _) => forall i | 0 <= i < |items| :: Tidy(items[i].tree)
    case Record(es, _) =>
      && (forall i | 0 <= i < |es| :: LowerEscapes(Joined(es[i].parts)) && Tidy(es[i].item.tree))
      && forall i | 0 <= i < |es| - 1 :: Before(es[i].key, es[i + 1].key)
  }

  /** Any text of a tree is at least as long as the printed text of its meaning, and is that text if it is tidy
      and as short. */
  lemma {:induction false} TreeIsLonger(t: Tree)
    requires Proper(t)
    ensures |Compact(Meaning(t))| <= |Spelled(t)|
    ensures |Compact(Meaning(t))| == |Spelled(t)| && Tidy(t) ==> Spelled(t) == Compact(Meaning(t))
    decreases t, 2
  {
    match t
    case Word(v) => assert WordText(v) == Compact(v);
    case Quoted(parts, s) =>
      PartsAreLonger(parts, s, "");
      assert Joined(parts) + "" == Joined(parts);
      Regroup("\"", EscapeAll(s), "\"");
    case List(items, gap) =>
      ItemsAreLonger(items, gap);
      Regroup("[", ItemsText(Meanings(items)), "]");
    case Record(es, gap) =>
      EntriesAreLonger(es, gap);
      Regroup("{", FieldsText(Collected(es)), "}");
  }

  lemma {:induction false} ItemIsLonger(i: Item)
    requires ProperItem(i)
    ensures |Compact(Meaning(i.tree))| <= |ItemSpelled(i)|
    ensures |Compact(Meaning(i.tree))| == |ItemSpelled(i)| && Tidy(i.tree) ==>
              ItemSpelled(i) == Compact(Meaning(i.tree))
    decreases i, 3
  {
    TreeIsLonger(i.tree);
    assert |ItemSpelled(i)| == |i.before| + |Spelled(i.tree)| + |i.after|;
  }

  lemma {:induction false} ItemsAreLonger(items: seq<Item>, gap: string)
    requires forall i | 0 <= i < |items| :: ProperItem(items[i])
    ensures |ItemsText(Meanings(items))| <= |ItemsSpelled(items, gap)|
    ensures |ItemsText(Meanings(items))| == |ItemsSpelled(items, gap)| ==>
              (forall i | 0 <= i < |items| :: Tidy(items[i].tree)) ==>
                ItemsSpelled(items, gap) == ItemsText(Meanings(items))
    decreases items, 0
  {
    if items != [] {
      ItemIsLonger(items[0]);
      assert Meanings(items)[1..] == Meanings(items[1..]);
      if |items| > 1 {
        ItemsAreLonger(items[1..], gap);
        Regroup(Compact(Meaning(items[0].tree)), ",", ItemsText(Meanings(items[1..])));
      }
    }
  }

  function FieldOf(e: Entry): Field {
    Field(e.key, Meaning(e.item.tree))
  }

  predicate TidyEntry(e: Entry) {
    LowerEscapes(Joined(e.parts)) && Tidy(e.item.tree)
  }

  function KeyAndValue(before: string, key: string, colon: string, value: string): (r: string)
    ensures |r| == |before| + |key| + |colon| + |value| + 3
  {
    before + ("\"" + (key + ("\"" + (colon + (":" + value)))))
  }

  lemma FieldTextIs(f: Field)
    ensures FieldText(f) == KeyAndValue("", EscapeAll(f.key), "", Compact(f.value))
  {
    var key, value := EscapeAll(f.key), Compact(f.value);
    Regroup("\"", key, "\"");
    Regroup("\"", key + "\"", ":" + value);
    Regroup("\"" + key + "\"", ":", value);
    Regroup(key, "\"", ":" + value);
    assert "" + (":" + value) == ":" + value;
    assert "" + ("\"" + (key + ("\"" + (":" + value)))) == "\"" + (key + ("\"" + (":" + value)));
  }

  lemma {:induction false} EntryIsLonger(e: Entry)
    requires ProperEntry(e)
    ensures |FieldText(FieldOf(e))| <= |EntrySpelled(e)|
    ensures |FieldText(FieldOf(e))| == |EntrySpelled(e)| && TidyEntry(e) ==> EntrySpelled(e) == FieldText(FieldOf(e))
    decreases e, 4
  {
    PartsAreLonger(e.parts, e.key, "");
    assert Joined(e.parts) + "" == Joined(e.parts);
    ItemIsLonger(e.item);
    FieldTextIs(FieldOf(e));
    assert EntrySpelled(e) == KeyAndValue(e.before, Joined(e.parts), e.colon, ItemSpelled(e.item));
  }

  lemma {:induction false} InsertLength(f: Field, fs: seq<Field>)
    ensures |FieldsText(Insert(f, fs))| == |FieldText(f)| + (if fs == [] then 0 else 1 + |FieldsText(fs)|)
  {
    if fs == [] || Before(f.key, fs[0].key) {
      assert ([f] + fs)[1..] == fs;
    } else {
      InsertLength(f, fs[1..]);
      assert ([fs[0]] + Insert(f, fs[1..]))[1..] == Insert(f, fs[1..]);
    }
  }

  predicate TidyEntries(es: seq<Entry>) {
    (forall i | 0 <= i < |es| :: TidyEntry(es[i])) && forall i | 0 <= i < |es| - 1 :: Before(es[i].key, es[i + 1].key)
  }

  lemma {:induction false} EntriesAreLonger(es: seq<Entry>, gap: string)
    requires forall i | 0 <= i < |es| :: ProperEntry(es[i])
    ensures |FieldsText(Collected(es))| <= |EntriesSpelled(es, gap)|
    ensures |FieldsText(Collected(es))| == |EntriesSpelled(es, gap)| && TidyEntries(es) ==>
              EntriesSpelled(es, gap) == FieldsText(Collected(es))
    decreases es, 0
  {
    if es != [] {
      EntryIsLonger(es[0]);
      EntriesAreLonger(es[1..], gap);
      InsertLength(FieldOf(es[0]), Collected(es[1..]));
      if TidyEntries(es) {
        InOrder(es);
        FirstField(FieldOf(es[0]), Collected(es[1..]));
      }
    }
  }

  lemma FirstField(f: Field, later: seq<Field>)
    ensures FieldsText([f] + later) == FieldText(f) + if later == [] then "" else "," + FieldsText(later)
  {
    assert ([f] + later)[1..] == later;
    assert FieldText(f) + "" == FieldText(f);
    Regroup(FieldText(f), ",", FieldsText(later));
  }

  /** Entries in ascending order are collected as they are. */
  lemma {:induction false} InOrder(es: seq<Entry>)
    requires es != [] && forall i | 0 <= i < |es| - 1 :: Before(es[i].key, es[i + 1].key)
    ensures Collected(es) == [FieldOf(es[0])] + Collected(es[1..]) && Ascending(Collected(es))
  {
    CollectedKeys(es);
    if |es| > 1 {
      InOrder(es[1..]);
      CollectedKeys(es[1..]);
      AscendingAbsent(Collected(es[1..]), es[0].key);
    }
  }

  // ---------- canonical text ----------

  lemma MeaningIsNormal(t: Tree)
    requires Proper(t)
    ensures Normal(Meaning(t))
  {
    TreeReads(t, "", Nesting(t) + 1);
    ParsedNormal(Spelled(t) + "", Nesting(t) + 1);
  }

  /** The canonical text of a value is the shortest of all its texts, and the only one of that length that has its
      keys in order and its hex digits in lower case. */
  lemma CanonicalIsShortest(t: Tree)
    requires Proper(t)
    ensures |CanonicalText(Meaning(t))| <= |Spelled(t)|
    ensures |CanonicalText(Meaning(t))| == |Spelled(t)| && Tidy(t) ==> Spelled(t) == CanonicalText(Meaning(t))
  {
    MeaningIsNormal(t);
    NormalFixpoint(Meaning(t));
    TreeIsLonger(t);
  }
}
