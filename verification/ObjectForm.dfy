/** The text of an object message: what a reader without the key filter of this node would find in it. */
module ObjectForm {
  import opened Wrappers
  import opened Json
  import opened JsonText
  import opened Text
  import opened StringGrammar
  import opened JsonGrammar
  import opened JsonShortest
  import opened Messages
  import opened Framing
  import opened WireForm

  /** A string as the printer spells it. */
  function Printed(s: string): (parts: seq<string>)
    ensures SpellsAll(parts, s) && Joined(parts) == EscapeAll(s)
  {
    if s == "" then []
    else
      EscapeSpells(s[0]);
      assert ([Escape(s[0])] + Printed(s[1..]))[1..] == Printed(s[1..]);
      [Escape(s[0])] + Printed(s[1..])
  }

  /** An entry without white space. */
  function Tight(key: string, i: Item): Entry {
    Entry("", Printed(key), key, "", i)
  }

  function StringItem(s: string): Item {
    Item("", Quoted(Printed(s), s), "")
  }

  lemma TightSpelled(key: string, i: Item)
    ensures EntrySpelled(Tight(key, i)) == Quote(key) + ":" + ItemSpelled(i)
  {
    var name, value := EscapeAll(key), ItemSpelled(i);
    Regroup("\"", name, "\"");
    Regroup("\"", name + "\"", ":" + value);
    Regroup(name, "\"", ":" + value);
    Regroup("\"" + name + "\"", ":", value);
    assert "" + (":" + value) == ":" + value;
    assert "" + ("\"" + (name + ("\"" + (":" + value)))) == "\"" + (name + ("\"" + (":" + value)));
  }

  lemma StringSpelled(key: string, s: string)
    ensures EntrySpelled(Tight(key, StringItem(s))) == FieldText(Field(key, Str(s)))
  {
    TightSpelled(key, StringItem(s));
    var text := EscapeAll(s);
    Regroup("\"", text, "\"");
    assert ItemSpelled(StringItem(s)) == Quote(s);
  }

  /** The tree of an object message with this tag and these keys, around the tree of its object. */
  function MessageTree(tag: string, id: string, i: Item): Tree {
    Record([Tight("type", StringItem(tag)), Tight("object_id", StringItem(id)), Tight("object", i)], "")
  }

  lemma ThreeEntries(a: Entry, b: Entry, c: Entry)
    ensures Spelled(Record([a, b, c], "")) ==
            "{" + ((EntrySpelled(a) + ("," + (EntrySpelled(b) + ("," + EntrySpelled(c))))) + "}")
  {
    assert [a, b, c][1..] == [b, c] && [b, c][1..] == [c];
    assert EntriesSpelled([c], "") == EntrySpelled(c);
    assert EntriesSpelled([b, c], "") == EntrySpelled(b) + ("," + EntrySpelled(c));
  }

  lemma RegroupMessage(a: string, b: string, key: string, raw: string)
    ensures "{" + (a + ("," + (b + ("," + (key + ":"))))) + (raw + "}") ==
            "{" + ((a + ("," + (b + ("," + (key + ":" + raw))))) + "}")
  {
    Regroup(key + ":", raw, "}");
    Regroup(",", key + ":", raw + "}");
    Regroup(b, "," + (key + ":"), raw + "}");
    Regroup(",", b + ("," + (key + ":")), raw + "}");
    Regroup(a, "," + (b + ("," + (key + ":"))), raw + "}");
    Regroup("{", a + ("," + (b + ("," + (key + ":")))), raw + "}");
    Regroup(",", key + ":" + raw, "}");
    Regroup(b, "," + (key + ":" + raw), "}");
    Regroup(",", b + ("," + (key + ":" + raw)), "}");
    Regroup(a, "," + (b + ("," + (key + ":" + raw))), "}");
  }

  lemma MessageSpelled(tag: string, id: string, i: Item)
    requires tag == "Object"
    ensures Spelled(MessageTree(tag, id, i)) == MessageText(Object(id, ItemSpelled(i)))
  {
    var a, b, c := Tight("type", StringItem(tag)), Tight("object_id", StringItem(id)), Tight("object", i);
    ThreeEntries(a, b, c);
    StringSpelled("type", tag);
    StringSpelled("object_id", id);
    TightSpelled("object", i);
    RegroupMessage(FieldText(Field("type", Str(tag))), FieldText(Field("object_id", Str(id))), Quote("object"),
                   ItemSpelled(i));
  }

  lemma ThreeNesting(a: Entry, b: Entry, c: Entry)
    requires ProperEntry(a) && ProperEntry(b) && ProperEntry(c)
    requires Nesting(a.item.tree) == 0 && Nesting(b.item.tree) == 0
    ensures Proper(Record([a, b, c], "")) && Nesting(Record([a, b, c], "")) == 1 + Nesting(c.item.tree)
  {
    var es := [a, b, c];
    assert es[1..] == [b, c] && [b, c][1..] == [c] && [c][1..] == [];
    assert EntriesNesting([c]) == Nesting(c.item.tree) && EntriesNesting([b, c]) == Nesting(c.item.tree);
    assert es[0] == a && es[1] == b && es[2] == c;
  }

  lemma ThreeMeanings(a: Entry, b: Entry, c: Entry)
    requires a.key != b.key && a.key != c.key && b.key != c.key
    ensures var fs := Collected([a, b, c]);
            && Lookup(fs, a.key) == Some(Meaning(a.item.tree)) && Lookup(fs, b.key) == Some(Meaning(b.item.tree))
            && Lookup(fs, c.key) == Some(Meaning(c.item.tree))
            && forall k :: HasKey(fs, k) <==> k == a.key || k == b.key || k == c.key
  {
    var es := [a, b, c];
    assert es[0] == a && es[1] == b && es[2] == c;
    LastCounts(es, 0);
    LastCounts(es, 1);
    LastCounts(es, 2);
    CollectedKeys(es);
    assert forall e :: e in es <==> e == a || e == b || e == c;
  }

  lemma TightIsProper(key: string, i: Item)
    requires ProperItem(i)
    ensures ProperEntry(Tight(key, i))
  {
  }

  lemma StringItemIs(s: string)
    ensures ProperItem(StringItem(s)) && Nesting(StringItem(s).tree) == 0 && Meaning(StringItem(s).tree) == Str(s)
  {
  }

  lemma MessageTreeIs(tag: string, id: string, i: Item)
    requires ProperItem(i)
    ensures Proper(MessageTree(tag, id, i)) && Nesting(MessageTree(tag, id, i)) == 1 + Nesting(i.tree)
    ensures var fs := Collected(MessageTree(tag, id, i).entries);
            && Lookup(fs, "type") == Some(Str(tag)) && Lookup(fs, "object_id") == Some(Str(id))
            && Lookup(fs, "object") == Some(Meaning(i.tree))
            && forall k :: HasKey(fs, k) <==> k == "type" || k == "object_id" || k == "object"
  {
    var a, b, c := Tight("type", StringItem(tag)), Tight("object_id", StringItem(id)), Tight("object", i);
    KeysDiffer();
    StringItemIs(tag);
    StringItemIs(id);
    TightIsProper(a.key, a.item);
    TightIsProper(b.key, b.item);
    TightIsProper(c.key, c.item);
    ThreeNesting(a, b, c);
    ThreeMeanings(a, b, c);
  }

  /** An object message holds its tag, its id and the value of its raw text, whatever the spelling of that, unless
      it is nested as deeply as the parser goes. */
  lemma ObjectInForm(id: string, raw: string, before: string, t: Tree, after: string)
    requires TextOf(raw, before, t, after)
    ensures var v := FromStr(Frame(Object(id, raw)));
            if Nesting(t) + 1 < RECURSION_LIMIT
            then v.Some? && v.value.Obj? && Form(v.value.fields, Object(id, raw))
            else v.None?
  {
    var i := Item(before, t, after);
    assert ItemSpelled(i) == raw;
    MessageSpelled("Object", id, i);
    MessageTreeIs("Object", id, i);
    RecordInForm(Frame(Object(id, raw)), MessageTree("Object", id, i), "Object", id, Meaning(t));
    if Nesting(t) + 1 < RECURSION_LIMIT {
      TextIsRead(raw, before, t, after);
    }
  }

  lemma RecordInForm(line: string, t: Tree, tag: string, id: string, v: Value)
    requires t.Record? && Proper(t) && line == Spelled(t) + "\n"
    requires Lookup(Collected(t.entries), "type") == Some(Str(tag))
    requires Lookup(Collected(t.entries), "object_id") == Some(Str(id))
    requires Lookup(Collected(t.entries), "object") == Some(v)
    requires forall k :: HasKey(Collected(t.entries), k) <==> k == "type" || k == "object_id" || k == "object"
    ensures var r := FromStr(line);
            if Nesting(t) < RECURSION_LIMIT then
              && r.Some? && r.value.Obj? && Tagged(r.value.fields, tag, {"type", "object_id", "object"})
              && Lookup(r.value.fields, "object_id") == Some(Str(id)) && Lookup(r.value.fields, "object") == Some(v)
            else r.None?
  {
    TreeThenNewline(t);
  }

  lemma TreeThenNewline(t: Tree)
    requires Proper(t)
    ensures FromStr(Spelled(t) + "\n") == if Nesting(t) < RECURSION_LIMIT then Some(Meaning(t)) else None
  {
    TreeReads(t, "\n", RECURSION_LIMIT);
    assert SkipWs("\n") == "";
  }

  // ---------- raw values ----------

  lemma {:induction false} NestingBound(t: Tree)
    ensures Nesting(t) <= |Spelled(t)|
    decreases t, 1
  {
    match t
    case List(items, gap) => ItemsBound(items, gap);
    case Record(es, gap) => EntriesBound(es, gap);
    case _ =>
  }

  lemma {:induction false} ItemsBound(items: seq<Item>, gap: string)
    ensures ItemsNesting(items) <= |ItemsSpelled(items, gap)|
    decreases items, 0
  {
    if items != [] {
      NestingBound(items[0].tree);
      ItemsBound(items[1..], gap);
      assert |ItemSpelled(items[0])| >= |Spelled(items[0].tree)|;
    }
  }

  lemma {:induction false} EntriesBound(es: seq<Entry>, gap: string)
    ensures EntriesNesting(es) <= |EntriesSpelled(es, gap)|
    decreases es, 0
  {
    if es != [] {
      NestingBound(es[0].item.tree);
      EntriesBound(es[1..], gap);
      EntryBound(es[0]);
    }
  }

  lemma EntryBound(e: Entry)
    ensures |EntrySpelled(e)| >= |Spelled(e.item.tree)|
  {
    assert |ItemSpelled(e.item)| >= |Spelled(e.item.tree)|;
    var tail := "\"" + (e.colon + (":" + ItemSpelled(e.item)));
    assert |tail| >= |ItemSpelled(e.item)|;
    assert |EntrySpelled(e)| == |e.before| + 1 + |Joined(e.parts)| + |tail|;
  }

  /** A text is taken as a raw value exactly when it is a JSON text of any nesting; what is kept of it is that text
      without the white space around it. */
  lemma RawIff(bytes: string, raw: string)
    ensures RawOf(bytes) == Some(raw) <==>
            exists before, t, after :: TextOf(bytes, before, t, after) && raw == Spelled(t)
  {
    var depth := |bytes| + RECURSION_LIMIT;
    if RawOf(bytes) == Some(raw) {
      var before, t := TreeRead(bytes, depth);
      var rest := ParseValue(bytes, depth).value.1;
      SkipToTree(before, t, rest);
      var after := SkippedIsBlank(rest);
      assert after + "" == after;
      assert (Spelled(t) + rest)[..|Spelled(t)|] == Spelled(t);
      assert TextOf(bytes, before, t, after);
    }
    if before, t, after :| TextOf(bytes, before, t, after) && raw == Spelled(t) {
      TextIsRaw(bytes, before, t, after);
    }
  }

  lemma TextIsRaw(bytes: string, before: string, t: Tree, after: string)
    requires TextOf(bytes, before, t, after)
    ensures RawOf(bytes) == Some(Spelled(t))
  {
    NestingBound(t);
    assert |Spelled(t)| <= |bytes|;
    TextParses(bytes, before, t, after, |bytes| + RECURSION_LIMIT);
    assert (Spelled(t) + after)[..|Spelled(t)|] == Spelled(t);
  }
}
