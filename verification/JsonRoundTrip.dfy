/** The parser undoes the printer, and always builds normal values. */
module JsonRoundTrip {
  import opened Wrappers
  import opened Json
  import opened JsonOrder
  import opened JsonText
  import opened Text

  // ---------- strings ----------

  lemma EscapeParses(c: char, k: string)
    requires Escape(c)[0] == '\\'
    ensures ParseEscape(Escape(c)[1..] + k) == Some((c, k))
  {
    var s := Escape(c)[1..] + k;
    if |Escape(c)| == 2 {
      assert s[1..] == k;
    } else {
      var high, low := HexChar(c as int / 16), HexChar(c as int % 16);
      assert s == ['u', '0', '0', high, low] + k;
      assert s[1..] == ['0', '0', high, low] + k;
      assert s[1..][4..] == k;
    }
  }

  lemma {:induction false} StringParses(s: string, k: string)
    ensures ParseStr(EscapeAll(s) + "\"" + k) == Some((s, k))
  {
    var text := EscapeAll(s) + "\"" + k;
    if s == "" {
      assert text[1..] == k;
    } else {
      StringParses(s[1..], k);
      var e, after := Escape(s[0]), EscapeAll(s[1..]) + "\"" + k;
      Regroup(e, EscapeAll(s[1..]), "\"");
      Regroup(e, EscapeAll(s[1..]) + "\"", k);
      assert text == e + after;
      assert s == [s[0]] + s[1..];
      if e[0] == '\\' {
        EscapeParses(s[0], after);
        assert text[1..] == e[1..] + after;
      } else {
        assert text[1..] == after;
      }
    }
  }

  lemma QuoteParses(s: string, k: string)
    ensures (Quote(s) + k)[0] == '"' && ParseStr((Quote(s) + k)[1..]) == Some((s, k))
  {
    StringParses(s, k);
    assert (Quote(s) + k)[1..] == EscapeAll(s) + "\"" + k;
  }

  // ---------- numbers ----------

  /** The text cannot be read as more of a number. */
  predicate NumberEnds(k: string) {
    k == "" || !ExtendsNumber(k[0])
  }

  lemma NatParses(n: nat, k: string)
    requires NumberEnds(k)
    ensures ParseNat(Digits(n) + k) == Some((n, k))
  {
    var s := Digits(n) + k;
    if n == 0 {
      assert s[1..] == k;
    } else {
      ReadsPrinted(n, k);
      assert ReadDigits(s, 0) == ReadDigits(s[1..], DigitValue(s[0]));
    }
  }

  lemma NumberParses(n: int, k: string)
    requires MIN_I64 <= n <= MAX_U64 && NumberEnds(k)
    ensures ParseNumber(IntText(n) + k) == Some((Num(n), k))
  {
    if n < 0 {
      NatParses(-n, k);
      assert (IntText(n) + k)[1..] == Digits(-n) + k;
    } else {
      NatParses(n, k);
    }
  }

  // ---------- values ----------

  lemma CompactHead(v: Value)
    ensures Compact(v) != "" && !IsWs(Compact(v)[0]) && Compact(v)[0] != ']'
  {
  }

  lemma ScalarParses(v: Value, k: string, depth: nat)
    requires WellFormed(v) && !v.Arr? && !v.Obj? && NumberEnds(k)
    ensures ParseValue(Compact(v) + k, depth) == Some((v, k))
  {
    var text := Compact(v) + k;
    assert SkipWs(text) == text;
    match v
    case Null => assert text[4..] == k;
    case Bool(b) => assert text[if b then 4 else 5..] == k;
    case Num(n) => NumberParses(n, k);
    case Str(s) => QuoteParses(s, k);
  }

  /** One step of the parser on a container. */
  lemma ContainerStep(open: char, body: string, depth: nat)
    requires open == '[' || open == '{'
    ensures ParseValue([open] + body, depth) ==
            if depth <= 1 then None
            else if open == '[' then ParseArray(body, depth - 1)
            else ParseObject(body, depth - 1)
  {
    var s := [open] + body;
    assert SkipWs(s) == s && s[1..] == body;
  }

  /** Parsing printed text gives the value with its keys sorted, exactly when it is not nested too
      deeply; what follows the printed text is left. */
  lemma {:induction false} ValueParses(v: Value, k: string, depth: nat)
    requires WellFormed(v) && NumberEnds(k) && depth > 0
    ensures ParseValue(Compact(v) + k, depth) == if Depth(v) < depth then Some((Sorted(v), k)) else None
    decreases v, 2
  {
    match v
    case Arr(items) =>
      assert Compact(v) + k == "[" + (ItemsText(items) + ("]" + k));
      ContainerStep('[', ItemsText(items) + ("]" + k), depth);
      if depth > 1 { ArrayParses(items, k, depth - 1); }
    case Obj(fields) =>
      assert Compact(v) + k == "{" + (FieldsText(fields) + ("}" + k));
      ContainerStep('{', FieldsText(fields) + ("}" + k), depth);
      if depth > 1 { ObjectParses(fields, k, depth - 1); }
    case _ => ScalarParses(v, k, depth);
  }

  lemma {:induction false} ArrayParses(items: seq<Value>, k: string, depth: nat)
    requires (forall i | 0 <= i < |items| :: WellFormed(items[i])) && depth > 0
    ensures ParseArray(ItemsText(items) + ("]" + k), depth) ==
            if ItemsDepth(items) < depth then Some((Arr(SortedItems(items)), k)) else None
    decreases items, 1
  {
    var text := ItemsText(items) + ("]" + k);
    if items == [] {
      assert text == "]" + k;
      assert text[1..] == k;
    } else {
      CompactHead(items[0]);
      assert ItemsText(items)[0] == Compact(items[0])[0];
      assert SkipWs(text) == text;
      ItemsParse(items, k, depth);
    }
  }

  lemma {:induction false} ItemsParse(items: seq<Value>, k: string, depth: nat)
    requires items != [] && (forall i | 0 <= i < |items| :: WellFormed(items[i])) && depth > 0
    ensures ParseItems(ItemsText(items) + ("]" + k), depth) ==
            if ItemsDepth(items) < depth then Some((SortedItems(items), k)) else None
    decreases items, 0
  {
    var text := ItemsText(items) + ("]" + k);
    if |items| == 1 {
      var rest := "]" + k;
      ValueParses(items[0], rest, depth);
      assert SkipWs(rest) == rest && rest[1..] == k;
      assert items[1..] == [] && SortedItems(items) == [Sorted(items[0])];
    } else {
      var tail := ItemsText(items[1..]) + ("]" + k);
      var rest := "," + tail;
      assert text == Compact(items[0]) + rest;
      ValueParses(items[0], rest, depth);
      assert SkipWs(rest) == rest && rest[1..] == tail;
      ItemsParse(items[1..], k, depth);
    }
  }

  lemma {:induction false} ObjectParses(fields: seq<Field>, k: string, depth: nat)
    requires Distinct(fields) && (forall i | 0 <= i < |fields| :: WellFormed(fields[i].value)) && depth > 0
    ensures ParseObject(FieldsText(fields) + ("}" + k), depth) ==
            if FieldsDepth(fields) < depth then Some((Obj(SortedFields(fields)), k)) else None
    decreases fields, 1
  {
    var text := FieldsText(fields) + ("}" + k);
    if fields == [] {
      assert text == "}" + k;
      assert text[1..] == k;
    } else {
      assert FieldText(fields[0])[0] == '"';
      assert FieldsText(fields)[0] == '"';
      assert SkipWs(text) == text;
      FieldsParse(fields, k, depth);
    }
  }

  /** A printed field parses as its key followed by its value. */
  lemma FieldHeadParses(f: Field, rest: string)
    ensures var text := FieldText(f) + rest;
            && text != "" && text[0] == '"' && SkipWs(text) == text
            && ParseStr(text[1..]) == Some((f.key, ":" + (Compact(f.value) + rest)))
  {
    var value := Compact(f.value) + rest;
    assert FieldText(f) + rest == Quote(f.key) + (":" + value);
    QuoteParses(f.key, ":" + value);
  }

  /** One step of the parser on a printed field. */
  lemma FieldStep(f: Field, rest: string, depth: nat)
    requires WellFormed(f.value) && depth > 0 && rest != "" && (rest[0] == ',' || rest[0] == '}')
    requires ParseValue(Compact(f.value) + rest, depth) ==
             if Depth(f.value) < depth then Some((Sorted(f.value), rest)) else None
    ensures var r := ParseFields(FieldText(f) + rest, depth);
            var field := Field(f.key, Sorted(f.value));
            if Depth(f.value) >= depth then r == None
            else if rest[0] == '}' then r == Some(([field], rest[1..]))
            else match ParseFields(rest[1..], depth)
                 case None => r == None
                 case Some((fields, end)) =>
                   r == Some((if HasKey(fields, f.key) then fields else Insert(field, fields), end))
  {
    FieldHeadParses(f, rest);
    var value := Compact(f.value) + rest;
    var colon := ":" + value;
    assert SkipWs(colon) == colon && colon[1..] == value;
    assert SkipWs(rest) == rest;
  }

  lemma {:induction false} FieldsParse(fs: seq<Field>, k: string, depth: nat)
    requires fs != [] && Distinct(fs) && (forall i | 0 <= i < |fs| :: WellFormed(fs[i].value)) && depth > 0
    ensures ParseFields(FieldsText(fs) + ("}" + k), depth) ==
            if FieldsDepth(fs) < depth then Some((SortedFields(fs), k)) else None
    decreases fs, 0
  {
    var tail := FieldsText(fs[1..]) + ("}" + k);
    var rest := if |fs| == 1 then "}" + k else "," + tail;
    assert FieldsText(fs) + ("}" + k) == FieldText(fs[0]) + rest;
    ValueParses(fs[0].value, rest, depth);
    FieldStep(fs[0], rest, depth);
    if |fs| == 1 {
      assert rest[1..] == k && fs[1..] == [];
      assert SortedFields(fs) == [Field(fs[0].key, Sorted(fs[0].value))];
    } else {
      assert rest[1..] == tail;
      FieldsParse(fs[1..], k, depth);
      SortedFieldsLookup(fs[1..]);
    }
  }

  /** Whatever text is parsed, the value is normal and nested less deeply than the limit. */
  lemma {:induction false} ParsedNormal(text: string, depth: nat)
    requires depth > 0
    ensures var r := ParseValue(text, depth); r.Some? ==> Normal(r.value.0) && Depth(r.value.0) < depth
    decreases |text|, 0
  {
    var s := SkipWs(text);
    if s != "" && depth > 1 {
      if s[0] == '[' {
        ParsedItemsNormal(SkipWs(s[1..]), depth - 1);
      } else if s[0] == '{' {
        ParsedFieldsNormal(SkipWs(s[1..]), depth - 1);
      }
    }
  }

  lemma {:induction false} ParsedItemsNormal(text: string, depth: nat)
    requires depth > 0
    ensures var r := ParseItems(text, depth); r.Some? ==> Normal(Arr(r.value.0)) && ItemsDepth(r.value.0) < depth
    decreases |text|, 1
  {
    ParsedNormal(text, depth);
    var v := ParseValue(text, depth);
    if v.Some? {
      var rest := SkipWs(v.value.1);
      if rest != "" && rest[0] == ',' {
        ParsedItemsNormal(rest[1..], depth);
      }
    }
  }

  lemma {:induction false} ParsedFieldsNormal(text: string, depth: nat)
    requires depth > 0
    ensures var r := ParseFields(text, depth); r.Some? ==> Normal(Obj(r.value.0)) && FieldsDepth(r.value.0) < depth
    decreases |text|, 1
  {
    var s := SkipWs(text);
    if s != "" && s[0] == '"' {
      var key := ParseStr(s[1..]);
      if key.Some? {
        var colon := SkipWs(key.value.1);
        if colon != "" && colon[0] == ':' {
          ParsedNormal(colon[1..], depth);
          var v := ParseValue(colon[1..], depth);
          if v.Some? {
            var rest := SkipWs(v.value.1);
            if rest != "" && rest[0] == ',' {
              ParsedFieldsNormal(rest[1..], depth);
              var fields := ParseFields(rest[1..], depth);
              if fields.Some? && !HasKey(fields.value.0, key.value.0) {
                InsertNormal(Field(key.value.0, v.value.0), fields.value.0);
              }
            }
          }
        }
      }
    }
  }

  lemma InsertNormal(f: Field, fs: seq<Field>)
    requires Normal(Obj(fs)) && Normal(f.value) && !HasKey(fs, f.key)
    ensures Normal(Obj(Insert(f, fs)))
    ensures FieldsDepth(Insert(f, fs)) == Max(Depth(f.value), FieldsDepth(fs))
  {
    InsertAscending(f, fs);
    InsertMembers(f, fs);
    InsertDepth(f, fs);
    var r := Insert(f, fs);
    forall i | 0 <= i < |r| ensures Normal(r[i].value) {
      assert r[i] in r;
    }
  }
}
