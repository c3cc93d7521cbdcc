/** What the text signed by every input determines (src/protocol/transaction.rs, lines 117-134). */
module SignedTexts {
  import opened Wrappers
  import opened Json
  import opened JsonOrder
  import opened Canonical
  import opened Transaction

  // ---------- inserting a field ----------

  lemma {:induction false} PutLookup(fs: seq<Field>, key: string, v: Value, k: string)
    ensures Lookup(Put(fs, key, v), k) == if k == key then Some(v) else Lookup(fs, k)
  {
    if fs != [] {
      var r := Put(fs, key, v);
      if fs[0].key == key || (!HasKey(fs, key) && Before(key, fs[0].key)) {
        assert r[1..] == if fs[0].key == key then fs[1..] else fs;
      } else {
        assert r[1..] == Put(fs[1..], key, v);
        PutLookup(fs[1..], key, v, k);
      }
    }
  }

  lemma {:induction false} PutWellFormed(fs: seq<Field>, key: string, v: Value)
    requires WellFormed(Obj(fs)) && WellFormed(v)
    ensures WellFormed(Obj(Put(fs, key, v)))
  {
    if fs != [] {
      var r := Put(fs, key, v);
      if fs[0].key == key || (!HasKey(fs, key) && Before(key, fs[0].key)) {
        assert r[1..] == if fs[0].key == key then fs[1..] else fs;
      } else {
        assert r[1..] == Put(fs[1..], key, v);
        assert WellFormed(Obj(fs[1..]));
        PutWellFormed(fs[1..], key, v);
        PutLookup(fs[1..], key, v, fs[0].key);
      }
    }
  }

  lemma {:induction false} PutPut(fs: seq<Field>, key: string, v: Value, w: Value)
    ensures Put(Put(fs, key, v), key, w) == Put(fs, key, w)
  {
    if fs != [] && fs[0].key != key && (HasKey(fs, key) || !Before(key, fs[0].key)) {
      PutPut(fs[1..], key, v, w);
      PutLookup(fs, key, v, key);
      assert Put(fs, key, v)[1..] == Put(fs[1..], key, v);
    }
  }

  /** The two objects agree on every key but one. */
  ghost predicate SameBut(f: seq<Field>, g: seq<Field>, key: string) {
    forall k | k != key :: SameOption(Lookup(f, k), Lookup(g, k))
  }

  lemma PutSame(f: seq<Field>, g: seq<Field>, key: string, v: Value, w: Value)
    requires WellFormed(Obj(f)) && WellFormed(Obj(g)) && WellFormed(v) && WellFormed(w)
    ensures Same(Obj(Put(f, key, v)), Obj(Put(g, key, w))) <==> SameBut(f, g, key) && Same(v, w)
  {
    var p, q := Put(f, key, v), Put(g, key, w);
    PutWellFormed(f, key, v);
    PutWellFormed(g, key, w);
    SameByLookup(p, q);
    forall k
      ensures Lookup(p, k) == if k == key then Some(v) else Lookup(f, k)
      ensures Lookup(q, k) == if k == key then Some(w) else Lookup(g, k)
    {
      PutLookup(f, key, v, k);
      PutLookup(g, key, w, k);
    }
    if SameLookups(p, q) {
      assert SameOption(Lookup(p, key), Lookup(q, key));
      forall k | k != key ensures SameOption(Lookup(f, k), Lookup(g, k)) {
        assert SameOption(Lookup(p, k), Lookup(q, k));
      }
    }
  }

  // ---------- blanking ----------

  lemma {:induction false} LookupWellFormed(fs: seq<Field>, key: string)
    requires WellFormed(Obj(fs)) && HasKey(fs, key)
    ensures WellFormed(Lookup(fs, key).value)
  {
    var i := LookupIndex(fs, key);
  }

  lemma PayloadWellFormed(obj: Value)
    requires WellFormed(obj) && HasInputs(obj)
    ensures WellFormed(Obj(Payload(obj))) && WellFormed(Arr(InputValues(obj)))
  {
    LookupWellFormed(obj.fields, "object");
    LookupWellFormed(Payload(obj), "inputs");
  }

  lemma BlankInputsWellFormed(vs: seq<Value>)
    requires WellFormed(Arr(vs))
    ensures WellFormed(Arr(BlankInputs(vs)))
  {
    forall i | 0 <= i < |vs| ensures WellFormed(BlankInputs(vs)[i]) {
      if vs[i].Obj? {
        PutWellFormed(vs[i].fields, "sig", Str(""));
      }
    }
  }

  lemma BlankWellFormed(obj: Value)
    requires WellFormed(obj)
    ensures WellFormed(Blank(obj))
  {
    if HasInputs(obj) {
      PayloadWellFormed(obj);
      BlankInputsWellFormed(InputValues(obj));
      PutWellFormed(Payload(obj), "inputs", Arr(BlankInputs(InputValues(obj))));
      PutWellFormed(obj.fields, "object", Obj(Put(Payload(obj), "inputs", Arr(BlankInputs(InputValues(obj))))));
    }
  }

  lemma BlankParts(obj: Value)
    requires HasInputs(obj)
    ensures HasInputs(Blank(obj))
    ensures Payload(Blank(obj)) == Put(Payload(obj), "inputs", Arr(BlankInputs(InputValues(obj))))
    ensures InputValues(Blank(obj)) == BlankInputs(InputValues(obj))
  {
    var items := Arr(BlankInputs(InputValues(obj)));
    PutLookup(Payload(obj), "inputs", items, "inputs");
    PutLookup(obj.fields, "object", Obj(Put(Payload(obj), "inputs", items)), "object");
  }

  /** Blanking twice is blanking once. */
  lemma BlankIdempotent(obj: Value)
    ensures Blank(Blank(obj)) == Blank(obj)
  {
    if HasInputs(obj) {
      BlankParts(obj);
      var vs := InputValues(obj);
      forall i | 0 <= i < |vs| ensures BlankInput(BlankInput(vs[i])) == BlankInput(vs[i]) {
        if vs[i].Obj? {
          PutPut(vs[i].fields, "sig", Str(""), Str(""));
        }
      }
      assert BlankInputs(BlankInputs(vs)) == BlankInputs(vs);
      PutPut(Payload(obj), "inputs", Arr(BlankInputs(vs)), Arr(BlankInputs(vs)));
      var payload := Obj(Put(Payload(obj), "inputs", Arr(BlankInputs(vs))));
      PutPut(obj.fields, "object", payload, payload);
    }
  }

  // ---------- what the signed text determines ----------

  ghost predicate AgreeExceptSig(x: Value, y: Value) {
    if x.Obj? && y.Obj? then SameBut(x.fields, y.fields, "sig") else Same(x, y)
  }

  /** Equal up to key order, except for the field `sig` of each input. */
  ghost predicate AgreeExceptSigs(a: Value, b: Value) {
    if HasInputs(a) && HasInputs(b) then
      && SameBut(a.fields, b.fields, "object")
      && SameBut(Payload(a), Payload(b), "inputs")
      && |InputValues(a)| == |InputValues(b)|
      && forall i | 0 <= i < |InputValues(a)| :: AgreeExceptSig(InputValues(a)[i], InputValues(b)[i])
    else Same(a, b)
  }

  lemma BlankInputsSame(s: seq<Value>, t: seq<Value>)
    requires WellFormed(Arr(s)) && WellFormed(Arr(t))
    ensures Same(Arr(BlankInputs(s)), Arr(BlankInputs(t))) <==>
            |s| == |t| && forall i | 0 <= i < |s| :: AgreeExceptSig(s[i], t[i])
  {
    if |s| == |t| {
      forall i | 0 <= i < |s| ensures Same(BlankInputs(s)[i], BlankInputs(t)[i]) <==> AgreeExceptSig(s[i], t[i]) {
        if s[i].Obj? && t[i].Obj? {
          PutSame(s[i].fields, t[i].fields, "sig", Str(""), Str(""));
        }
      }
    }
  }

  lemma SameUnder(f: seq<Field>, g: seq<Field>, key: string)
    requires WellFormed(Obj(f)) && WellFormed(Obj(g)) && Same(Obj(f), Obj(g))
    ensures SameOption(Lookup(f, key), Lookup(g, key))
    ensures HasKey(f, key) ==> WellFormed(Lookup(f, key).value) && WellFormed(Lookup(g, key).value)
  {
    SameToLookups(f, g);
    assert SameOption(Lookup(f, key), Lookup(g, key));
    if HasKey(f, key) {
      LookupWellFormed(f, key);
      LookupWellFormed(g, key);
    }
  }

  lemma SameHasInputs(a: Value, b: Value)
    requires WellFormed(a) && WellFormed(b) && Same(a, b)
    ensures HasInputs(a) <==> HasInputs(b)
  {
    if a.Obj? {
      SameUnder(a.fields, b.fields, "object");
      if HasKey(a.fields, "object") && Lookup(a.fields, "object").value.Obj? {
        SameUnder(Lookup(a.fields, "object").value.fields, Lookup(b.fields, "object").value.fields, "inputs");
      }
    }
  }

  /** Two objects have the same signed text exactly when they agree on everything but the signatures
      of their inputs and the order of keys. */
  lemma SignedTextDecides(a: Value, b: Value)
    requires WellFormed(a) && WellFormed(b)
    ensures SignedText(a) == SignedText(b) <==> AgreeExceptSigs(a, b)
  {
    BlankWellFormed(a);
    BlankWellFormed(b);
    CanonicalDecides(Blank(a), Blank(b));
    if HasInputs(a) && HasInputs(b) {
      PayloadWellFormed(a);
      PayloadWellFormed(b);
      var s, t := InputValues(a), InputValues(b);
      BlankInputsWellFormed(s);
      BlankInputsWellFormed(t);
      BlankInputsSame(s, t);
      PutSame(Payload(a), Payload(b), "inputs", Arr(BlankInputs(s)), Arr(BlankInputs(t)));
      PutWellFormed(Payload(a), "inputs", Arr(BlankInputs(s)));
      PutWellFormed(Payload(b), "inputs", Arr(BlankInputs(t)));
      PutSame(a.fields, b.fields, "object",
              Obj(Put(Payload(a), "inputs", Arr(BlankInputs(s)))), Obj(Put(Payload(b), "inputs", Arr(BlankInputs(t)))));
    } else if Same(Blank(a), Blank(b)) {
      SameHasInputs(Blank(a), Blank(b));
      if HasInputs(a) { BlankParts(a); }
      if HasInputs(b) { BlankParts(b); }
    } else if Same(a, b) {
      SameHasInputs(a, b);
    }
  }

  // ---------- the same for the decoded transaction ----------

  /** Objects that agree on every key have the same optional values. */
  lemma SameFields(f: seq<Field>, g: seq<Field>)
    requires WellFormed(Obj(f)) && WellFormed(Obj(g)) && Same(Obj(f), Obj(g))
    ensures forall k :: HasKey(f, k) <==> HasKey(g, k)
    ensures forall k :: SameOption(Lookup(f, k), Lookup(g, k))
  {
    SameToLookups(f, g);
  }

  lemma SameScalar(a: Option<Value>, b: Option<Value>)
    requires SameOption(a, b)
    ensures AsString(a) == AsString(b) && AsU64(a) == AsU64(b) && AsHeight(a) == AsHeight(b)
  {
  }

  lemma SameOutpoint(a: Option<Value>, b: Option<Value>)
    requires a.Some? ==> WellFormed(a.value)
    requires b.Some? ==> WellFormed(b.value)
    requires SameOption(a, b)
    ensures DecodeOutpoint(a) == DecodeOutpoint(b)
  {
    if a.Some? && a.value.Obj? {
      var f, g := a.value.fields, b.value.fields;
      SameFields(f, g);
      SameOnlyKeys(f, g, {"txid", "index"});
      SameScalar(Lookup(f, "txid"), Lookup(g, "txid"));
      SameScalar(Lookup(f, "index"), Lookup(g, "index"));
    }
  }

  lemma SameInput(a: Value, b: Value)
    requires WellFormed(a) && WellFormed(b) && Same(a, b)
    ensures DecodeInput(a) == DecodeInput(b)
  {
    if a.Obj? {
      var f, g := a.fields, b.fields;
      SameFields(f, g);
      SameOnlyKeys(f, g, {"outpoint", "sig"});
      assert SameOption(Lookup(f, "outpoint"), Lookup(g, "outpoint"));
      SameScalar(Lookup(f, "sig"), Lookup(g, "sig"));
      if HasKey(f, "outpoint") {
        LookupWellFormed(f, "outpoint");
        LookupWellFormed(g, "outpoint");
      }
      SameOutpoint(Lookup(f, "outpoint"), Lookup(g, "outpoint"));
    }
  }

  lemma SameOutput(a: Value, b: Value)
    requires WellFormed(a) && WellFormed(b) && Same(a, b)
    ensures DecodeOutput(a) == DecodeOutput(b)
  {
    if a.Obj? {
      var f, g := a.fields, b.fields;
      SameFields(f, g);
      SameOnlyKeys(f, g, {"pubkey", "value"});
      SameScalar(Lookup(f, "pubkey"), Lookup(g, "pubkey"));
      SameScalar(Lookup(f, "value"), Lookup(g, "value"));
    }
  }

  function InputsOf(v: Option<Value>): Option<seq<Input>> {
    var items :- AsArray(v);
    DecodeInputs(items)
  }

  function OutputsOf(v: Option<Value>): Option<seq<Output>> {
    var items :- AsArray(v);
    DecodeOutputs(items)
  }

  lemma SameArrays(a: Option<Value>, b: Option<Value>)
    requires a.Some? ==> WellFormed(a.value)
    requires b.Some? ==> WellFormed(b.value)
    requires SameOption(a, b)
    ensures InputsOf(a) == InputsOf(b) && OutputsOf(a) == OutputsOf(b)
  {
    if AsArray(a).Some? {
      var s, t := AsArray(a).value, AsArray(b).value;
      forall i | 0 <= i < |s|
        ensures DecodeInput(s[i]) == DecodeInput(t[i]) && DecodeOutput(s[i]) == DecodeOutput(t[i])
      {
        SameInput(s[i], t[i]);
        SameOutput(s[i], t[i]);
      }
      assert DecodeInputs(s).Some? ==> DecodeInputs(s).value == DecodeInputs(t).value;
      assert DecodeOutputs(s).Some? ==> DecodeOutputs(s).value == DecodeOutputs(t).value;
    }
  }

  lemma SameArraysUnder(f: seq<Field>, g: seq<Field>, key: string)
    requires WellFormed(Obj(f)) && WellFormed(Obj(g)) && SameOption(Lookup(f, key), Lookup(g, key))
    ensures InputsOf(Lookup(f, key)) == InputsOf(Lookup(g, key))
    ensures OutputsOf(Lookup(f, key)) == OutputsOf(Lookup(g, key))
  {
    if HasKey(f, key) {
      LookupWellFormed(f, key);
      LookupWellFormed(g, key);
    }
    SameArrays(Lookup(f, key), Lookup(g, key));
  }

  /** A payload is decoded from its keys and four of its values. */
  lemma TxParts(fs: seq<Field>)
    ensures DecodeTx(Obj(fs)) ==
            if OnlyKeys(fs, {"type", "height", "inputs", "outputs"})
               && AsString(Lookup(fs, "type")).Some? && AsHeight(Lookup(fs, "height")).Some?
               && InputsOf(Lookup(fs, "inputs")).Some? && OutputsOf(Lookup(fs, "outputs")).Some?
            then Some(Transaction(AsString(Lookup(fs, "type")).value, AsHeight(Lookup(fs, "height")).value,
                                  InputsOf(Lookup(fs, "inputs")).value, OutputsOf(Lookup(fs, "outputs")).value))
            else None
  {
  }

  lemma SamePayload(a: Value, b: Value)
    requires WellFormed(a) && WellFormed(b) && Same(a, b)
    ensures DecodeTx(a) == DecodeTx(b)
  {
    if a.Obj? {
      var f, g := a.fields, b.fields;
      SameFields(f, g);
      SameOnlyKeys(f, g, {"type", "height", "inputs", "outputs"});
      SameScalar(Lookup(f, "type"), Lookup(g, "type"));
      SameScalar(Lookup(f, "height"), Lookup(g, "height"));
      SameArraysUnder(f, g, "inputs");
      SameArraysUnder(f, g, "outputs");
      TxParts(f);
      TxParts(g);
    }
  }

  /** Decoding does not see key order. */
  lemma SameTx(a: Value, b: Value)
    requires WellFormed(a) && WellFormed(b) && Same(a, b)
    ensures TxOf(a) == TxOf(b)
  {
    if a.Obj? {
      SameFields(a.fields, b.fields);
      assert SameOption(Lookup(a.fields, "object"), Lookup(b.fields, "object"));
      if HasKey(a.fields, "object") {
        LookupWellFormed(a.fields, "object");
        LookupWellFormed(b.fields, "object");
        SamePayload(Lookup(a.fields, "object").value, Lookup(b.fields, "object").value);
      }
    }
  }

  function UnsignedInputs(inputs: seq<Input>): (r: seq<Input>)
    ensures |r| == |inputs| && forall i | 0 <= i < |r| :: r[i] == inputs[i].(sig := "")
  {
    if inputs == [] then [] else [inputs[0].(sig := "")] + UnsignedInputs(inputs[1..])
  }

  /** The transaction without its signatures. */
  function Unsigned(tx: Transaction): Transaction {
    tx.(inputs := UnsignedInputs(tx.inputs))
  }

  /** Replacing a value that is there keeps the keys. */
  lemma PutKeepsKeys(f: seq<Field>, key: string, v: Value, allowed: set<string>)
    requires HasKey(f, key)
    ensures OnlyKeys(Put(f, key, v), allowed) <==> OnlyKeys(f, allowed)
  {
    forall k ensures HasKey(Put(f, key, v), k) <==> HasKey(f, k) {
      PutLookup(f, key, v, k);
    }
    SameOnlyKeys(Put(f, key, v), f, allowed);
  }

  lemma BlankedInput(v: Value)
    requires DecodeInput(v).Some?
    ensures DecodeInput(BlankInput(v)) == Some(DecodeInput(v).value.(sig := ""))
  {
    PutKeepsKeys(v.fields, "sig", Str(""), {"outpoint", "sig"});
    PutLookup(v.fields, "sig", Str(""), "outpoint");
    PutLookup(v.fields, "sig", Str(""), "sig");
  }

  lemma BlankedInputs(vs: seq<Value>)
    requires DecodeInputs(vs).Some?
    ensures DecodeInputs(BlankInputs(vs)) == Some(UnsignedInputs(DecodeInputs(vs).value))
  {
    forall i | 0 <= i < |vs|
      ensures DecodeInput(BlankInputs(vs)[i]) == Some(DecodeInputs(vs).value[i].(sig := ""))
    {
      BlankedInput(vs[i]);
    }
    assert DecodeInputs(BlankInputs(vs)).value == UnsignedInputs(DecodeInputs(vs).value);
  }

  lemma BlankedPayload(f: seq<Field>, vs: seq<Value>)
    requires DecodeTx(Obj(f)).Some? && Lookup(f, "inputs") == Some(Arr(vs))
    ensures DecodeTx(Obj(Put(f, "inputs", Arr(BlankInputs(vs))))) == Some(Unsigned(DecodeTx(Obj(f)).value))
  {
    var blanked := Arr(BlankInputs(vs));
    TxParts(f);
    BlankedInputs(vs);
    PutKeepsKeys(f, "inputs", blanked, {"type", "height", "inputs", "outputs"});
    PutLookup(f, "inputs", blanked, "type");
    PutLookup(f, "inputs", blanked, "height");
    PutLookup(f, "inputs", blanked, "inputs");
    PutLookup(f, "inputs", blanked, "outputs");
    TxParts(Put(f, "inputs", blanked));
  }

  lemma DecodedHasInputs(obj: Value)
    requires TxOf(obj).Some?
    ensures HasInputs(obj)
    ensures DecodeTx(Obj(Payload(obj))) == TxOf(obj)
    ensures Lookup(Payload(obj), "inputs") == Some(Arr(InputValues(obj)))
  {
    TxParts(Lookup(obj.fields, "object").value.fields);
  }

  /** Blanking the object is erasing the signatures of its transaction. */
  lemma BlankedTx(obj: Value)
    requires TxOf(obj).Some?
    ensures TxOf(Blank(obj)) == Some(Unsigned(TxOf(obj).value))
  {
    DecodedHasInputs(obj);
    BlankedPayload(Payload(obj), InputValues(obj));
    var payload := Obj(Put(Payload(obj), "inputs", Arr(BlankInputs(InputValues(obj)))));
    PutLookup(obj.fields, "object", payload, "object");
  }

  /** A signature over one transaction's text is over no other transaction, signatures aside. */
  lemma SignedTextFixesTransaction(a: Value, b: Value)
    requires WellFormed(a) && WellFormed(b) && TxOf(a).Some? && TxOf(b).Some?
    requires SignedText(a) == SignedText(b)
    ensures Unsigned(TxOf(a).value) == Unsigned(TxOf(b).value)
  {
    BlankWellFormed(a);
    BlankWellFormed(b);
    CanonicalDecides(Blank(a), Blank(b));
    SameTx(Blank(a), Blank(b));
    BlankedTx(a);
    BlankedTx(b);
  }
}
