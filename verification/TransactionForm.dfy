/** Decoding a transaction is exactly the inverse of writing it, up to the order of keys and an absent height
    (src/protocol/transaction.rs, lines 8-42). */
module TransactionForm {
  import opened Wrappers
  import opened Json
  import opened JsonOrder
  import opened Transaction
  import opened TransactionText
  import opened SignedTexts

  /** The two lists have the same keys. */
  predicate OnlyKeysOf(fs: seq<Field>, gs: seq<Field>) {
    forall i | 0 <= i < |fs| :: HasKey(gs, fs[i].key)
  }

  /** An object is the same as a list of fields exactly when it has each field of the list, and no other key. */
  lemma SameAsList(fs: seq<Field>, gs: seq<Field>)
    requires Distinct(fs) && Distinct(gs)
    ensures Same(Obj(fs), Obj(gs)) <==>
            OnlyKeysOf(fs, gs) && forall i | 0 <= i < |gs| :: SameOption(Lookup(fs, gs[i].key), Some(gs[i].value))
  {
    SameByLookup(fs, gs);
    if SameLookups(fs, gs) {
      forall i | 0 <= i < |fs| ensures HasKey(gs, fs[i].key) {
        LookupAt(fs, i);
        assert SameOption(Lookup(fs, fs[i].key), Lookup(gs, fs[i].key));
      }
      forall i | 0 <= i < |gs| ensures SameOption(Lookup(fs, gs[i].key), Some(gs[i].value)) {
        LookupAt(gs, i);
        assert SameOption(Lookup(fs, gs[i].key), Lookup(gs, gs[i].key));
      }
    }
    if OnlyKeysOf(fs, gs) && forall i | 0 <= i < |gs| :: SameOption(Lookup(fs, gs[i].key), Some(gs[i].value)) {
      forall k ensures SameOption(Lookup(fs, k), Lookup(gs, k)) {
        if HasKey(gs, k) {
          var i := LookupIndex(gs, k);
          assert SameOption(Lookup(fs, gs[i].key), Some(gs[i].value));
        } else if HasKey(fs, k) {
          var i := LookupIndex(fs, k);
        }
      }
    }
  }

  lemma NumberIs(v: Option<Value>, n: nat)
    requires v.Some? ==> WellFormed(v.value)
    ensures AsU64(v) == Some(n) <==> n <= MAX_U64 && SameOption(v, Some(Num(n)))
  {
  }

  lemma StringIs(v: Option<Value>, s: string)
    ensures AsString(v) == Some(s) <==> SameOption(v, Some(Str(s)))
  {
  }

  lemma FieldIsWellFormed(fs: seq<Field>, key: string)
    requires WellFormed(Obj(fs))
    ensures HasKey(fs, key) ==> WellFormed(Lookup(fs, key).value)
  {
    if HasKey(fs, key) {
      LookupWellFormed(fs, key);
    }
  }

  /** The same for a list of two fields. */
  lemma SameAsTwo(fs: seq<Field>, f: Field, g: Field)
    requires Distinct(fs) && f.key != g.key
    ensures Same(Obj(fs), Obj([f, g])) <==>
            && OnlyKeys(fs, {f.key, g.key})
            && SameOption(Lookup(fs, f.key), Some(f.value)) && SameOption(Lookup(fs, g.key), Some(g.value))
  {
    var gs := [f, g];
    TwoLookups(f, g);
    SameAsList(fs, gs);
    assert gs[0] == f && gs[1] == g;
    forall i | 0 <= i < |fs| ensures HasKey(gs, fs[i].key) <==> fs[i].key in {f.key, g.key} {
      if HasKey(gs, fs[i].key) {
        var j := LookupIndex(gs, fs[i].key);
      }
    }
  }

  lemma OutpointIff(v: Value, o: Outpoint)
    requires WellFormed(v)
    ensures DecodeOutpoint(Some(v)) == Some(o) <==> o.index <= MAX_U64 && Same(v, OutpointValue(o))
  {
    if v.Obj? {
      var fs := v.fields;
      assert "index"[0] == 'i' && "txid"[0] == 't';
      SameAsTwo(fs, Field("index", Num(o.index)), Field("txid", Str(o.txid)));
      FieldIsWellFormed(fs, "index");
      NumberIs(Lookup(fs, "index"), o.index);
      StringIs(Lookup(fs, "txid"), o.txid);
      assert {"index", "txid"} == {"txid", "index"};
    }
  }

  lemma OutputIff(v: Value, o: Output)
    requires WellFormed(v)
    ensures DecodeOutput(v) == Some(o) <==> o.value <= MAX_U64 && Same(v, OutputValue(o))
  {
    if v.Obj? {
      var fs := v.fields;
      assert "pubkey"[0] == 'p' && "value"[0] == 'v';
      SameAsTwo(fs, Field("pubkey", Str(o.pubkey)), Field("value", Num(o.value)));
      FieldIsWellFormed(fs, "value");
      NumberIs(Lookup(fs, "value"), o.value);
      StringIs(Lookup(fs, "pubkey"), o.pubkey);
    }
  }

  lemma InputIff(v: Value, input: Input)
    requires WellFormed(v)
    ensures DecodeInput(v) == Some(input) <==> input.outpoint.index <= MAX_U64 && Same(v, InputValue(input))
  {
    if v.Obj? {
      var fs := v.fields;
      assert "outpoint"[0] == 'o' && "sig"[0] == 's';
      SameAsTwo(fs, Field("outpoint", OutpointValue(input.outpoint)), Field("sig", Str(input.sig)));
      FieldIsWellFormed(fs, "outpoint");
      if HasKey(fs, "outpoint") {
        OutpointIff(Lookup(fs, "outpoint").value, input.outpoint);
      }
      StringIs(Lookup(fs, "sig"), input.sig);
    }
  }

  lemma InputsIff(vs: seq<Value>, inputs: seq<Input>)
    requires WellFormed(Arr(vs))
    ensures DecodeInputs(vs) == Some(inputs) <==>
            && (forall i | 0 <= i < |inputs| :: inputs[i].outpoint.index <= MAX_U64)
            && Same(Arr(vs), Arr(InputArray(inputs)))
  {
    if |vs| == |inputs| {
      forall i | 0 <= i < |vs|
        ensures DecodeInput(vs[i]) == Some(inputs[i]) <==>
                inputs[i].outpoint.index <= MAX_U64 && Same(vs[i], InputArray(inputs)[i])
      {
        InputIff(vs[i], inputs[i]);
      }
      if forall i | 0 <= i < |vs| :: DecodeInput(vs[i]) == Some(inputs[i]) {
        assert DecodeInputs(vs).value == inputs;
      }
    }
  }

  lemma OutputsIff(vs: seq<Value>, outputs: seq<Output>)
    requires WellFormed(Arr(vs))
    ensures DecodeOutputs(vs) == Some(outputs) <==>
            (forall i | 0 <= i < |outputs| :: outputs[i].value <= MAX_U64) && Same(Arr(vs), Arr(OutputArray(outputs)))
  {
    if |vs| == |outputs| {
      forall i | 0 <= i < |vs|
        ensures DecodeOutput(vs[i]) == Some(outputs[i]) <==>
                outputs[i].value <= MAX_U64 && Same(vs[i], OutputArray(outputs)[i])
      {
        OutputIff(vs[i], outputs[i]);
      }
      if forall i | 0 <= i < |vs| :: DecodeOutput(vs[i]) == Some(outputs[i]) {
        assert DecodeOutputs(vs).value == outputs;
      }
    }
  }

  // ---------- transactions ----------

  /** The fields of a transaction without its height. */
  function Heightless(tx: Transaction): seq<Field> {
    TxFields(tx)[1..]
  }

  /** The value is the transaction's, up to the order of keys; a height that is none may be left out. */
  ghost predicate FormOf(v: Value, tx: Transaction) {
    Same(v, Obj(TxFields(tx))) || (tx.height.None? && Same(v, Obj(Heightless(tx))))
  }

  /** The three fields that are always there. */
  ghost predicate Rest(fs: seq<Field>, tx: Transaction) {
    && SameOption(Lookup(fs, "inputs"), Some(Arr(InputArray(tx.inputs))))
    && SameOption(Lookup(fs, "outputs"), Some(Arr(OutputArray(tx.outputs))))
    && SameOption(Lookup(fs, "type"), Some(Str(tx.kind)))
  }

  lemma HeightlessLookups(tx: Transaction)
    ensures var gs := Heightless(tx);
            && |gs| == 3 && gs[0] == Field("inputs", Arr(InputArray(tx.inputs)))
            && gs[1] == Field("outputs", Arr(OutputArray(tx.outputs))) && gs[2] == Field("type", Str(tx.kind))
            && Distinct(gs) && forall k :: HasKey(gs, k) <==> k == "inputs" || k == "outputs" || k == "type"
  {
    TxLookups(tx);
    var gs := Heightless(tx);
    forall k ensures HasKey(gs, k) <==> k == "inputs" || k == "outputs" || k == "type" {
      if HasKey(gs, k) {
        var i := LookupIndex(gs, k);
      }
      LookupAt(gs, 0);
      LookupAt(gs, 1);
      LookupAt(gs, 2);
    }
  }

  lemma SameAsHeightless(fs: seq<Field>, tx: Transaction)
    requires Distinct(fs)
    ensures Same(Obj(fs), Obj(Heightless(tx))) <==> OnlyKeys(fs, {"type", "inputs", "outputs"}) && Rest(fs, tx)
  {
    HeightlessLookups(tx);
    SameAsList(fs, Heightless(tx));
    var gs := Heightless(tx);
    assert OnlyKeysOf(fs, gs) <==> OnlyKeys(fs, {"type", "inputs", "outputs"});
  }

  lemma FullKeys(fs: seq<Field>, tx: Transaction)
    ensures OnlyKeysOf(fs, TxFields(tx)) <==> OnlyKeys(fs, {"type", "height", "inputs", "outputs"})
  {
    HeightlessLookups(tx);
    assert TxFields(tx)[0].key == "height";
    assert forall k :: HasKey(TxFields(tx), k) <==> k == "height" || HasKey(Heightless(tx), k);
  }

  lemma FullFields(fs: seq<Field>, tx: Transaction)
    ensures var gs := TxFields(tx);
            (forall i | 0 <= i < |gs| :: SameOption(Lookup(fs, gs[i].key), Some(gs[i].value))) <==>
            SameOption(Lookup(fs, "height"), Some(HeightValue(tx.height))) && Rest(fs, tx)
  {
    var gs := TxFields(tx);
    assert gs[0].key == "height" && gs[1].key == "inputs" && gs[2].key == "outputs" && gs[3].key == "type";
  }

  lemma SameAsFull(fs: seq<Field>, tx: Transaction)
    requires Distinct(fs)
    ensures Same(Obj(fs), Obj(TxFields(tx))) <==>
            && OnlyKeys(fs, {"type", "height", "inputs", "outputs"})
            && SameOption(Lookup(fs, "height"), Some(HeightValue(tx.height))) && Rest(fs, tx)
  {
    TxLookups(tx);
    SameAsList(fs, TxFields(tx));
    FullKeys(fs, tx);
    FullFields(fs, tx);
  }

  lemma HeightIs(v: Option<Value>, height: Option<nat>)
    requires v.Some? ==> WellFormed(v.value)
    ensures AsHeight(v) == Some(height) <==>
            && (height.Some? ==> height.value <= MAX_U64)
            && (SameOption(v, Some(HeightValue(height))) || (height.None? && v.None?))
  {
  }

  lemma RestIff(fs: seq<Field>, tx: Transaction)
    requires WellFormed(Obj(fs))
    ensures Rest(fs, tx) && Fits(tx.(height := None)) <==>
            && AsString(Lookup(fs, "type")) == Some(tx.kind)
            && AsArray(Lookup(fs, "inputs")).Some? && AsArray(Lookup(fs, "outputs")).Some?
            && DecodeInputs(AsArray(Lookup(fs, "inputs")).value) == Some(tx.inputs)
            && DecodeOutputs(AsArray(Lookup(fs, "outputs")).value) == Some(tx.outputs)
  {
    StringIs(Lookup(fs, "type"), tx.kind);
    FieldIsWellFormed(fs, "inputs");
    FieldIsWellFormed(fs, "outputs");
    InputsAre(Lookup(fs, "inputs"), tx.inputs);
    OutputsAre(Lookup(fs, "outputs"), tx.outputs);
  }

  lemma InputsAre(v: Option<Value>, inputs: seq<Input>)
    requires v.Some? ==> WellFormed(v.value)
    ensures AsArray(v).Some? && DecodeInputs(AsArray(v).value) == Some(inputs) <==>
            && (forall i | 0 <= i < |inputs| :: inputs[i].outpoint.index <= MAX_U64)
            && SameOption(v, Some(Arr(InputArray(inputs))))
  {
    if AsArray(v).Some? {
      InputsIff(AsArray(v).value, inputs);
    }
  }

  lemma OutputsAre(v: Option<Value>, outputs: seq<Output>)
    requires v.Some? ==> WellFormed(v.value)
    ensures AsArray(v).Some? && DecodeOutputs(AsArray(v).value) == Some(outputs) <==>
            && (forall i | 0 <= i < |outputs| :: outputs[i].value <= MAX_U64)
            && SameOption(v, Some(Arr(OutputArray(outputs))))
  {
    if AsArray(v).Some? {
      OutputsIff(AsArray(v).value, outputs);
    }
  }

  /** The decoder as one condition on the fields. */
  lemma DecodeTxIs(fs: seq<Field>, tx: Transaction)
    ensures DecodeTx(Obj(fs)) == Some(tx) <==>
            && OnlyKeys(fs, {"type", "height", "inputs", "outputs"})
            && AsHeight(Lookup(fs, "height")) == Some(tx.height)
            && AsString(Lookup(fs, "type")) == Some(tx.kind)
            && AsArray(Lookup(fs, "inputs")).Some? && AsArray(Lookup(fs, "outputs")).Some?
            && DecodeInputs(AsArray(Lookup(fs, "inputs")).value) == Some(tx.inputs)
            && DecodeOutputs(AsArray(Lookup(fs, "outputs")).value) == Some(tx.outputs)
  {
    assert Obj(fs).fields == fs;
  }

  lemma OnlyWithoutHeight(fs: seq<Field>)
    ensures OnlyKeys(fs, {"type", "inputs", "outputs"}) <==>
            OnlyKeys(fs, {"type", "height", "inputs", "outputs"}) && !HasKey(fs, "height")
  {
    OnlyKeysByLookup(fs, {"type", "inputs", "outputs"});
    OnlyKeysByLookup(fs, {"type", "height", "inputs", "outputs"});
    assert "height"[0] == 'h' && "inputs"[0] == 'i' && "outputs"[0] == 'o' && "type"[0] == 't';
    assert "height" !in {"type", "inputs", "outputs"};
  }

  /** A value is decoded as a transaction exactly when it is that transaction's value, up to the order of keys at
      any depth and with a height of none left out or null: unknown and missing fields, negative numbers and
      values of another kind are all refused. */
  lemma DecodesIff(v: Value, tx: Transaction)
    requires WellFormed(v)
    ensures DecodeTx(v) == Some(tx) <==> Fits(tx) && FormOf(v, tx)
  {
    if v.Obj? {
      var fs := v.fields;
      DecodeTxIs(fs, tx);
      FieldIsWellFormed(fs, "height");
      HeightIs(Lookup(fs, "height"), tx.height);
      RestIff(fs, tx);
      SameAsFull(fs, tx);
      SameAsHeightless(fs, tx);
      OnlyWithoutHeight(fs);
    }
  }

  /** The object holds the transaction, in any form of it. */
  ghost predicate Holds(obj: Value, tx: Transaction) {
    && Fits(tx) && obj.Obj? && HasKey(obj.fields, "object") && FormOf(Lookup(obj.fields, "object").value, tx)
  }

  /** The object handed to validation holds a transaction under `object`; its other fields do not matter. */
  lemma HoldsIff(obj: Value, tx: Transaction)
    requires WellFormed(obj)
    ensures TxOf(obj) == Some(tx) <==> Holds(obj, tx)
  {
    if obj.Obj? && HasKey(obj.fields, "object") {
      LookupWellFormed(obj.fields, "object");
      DecodesIff(Lookup(obj.fields, "object").value, tx);
    }
  }

  // ---------- verdicts by shape ----------

  /** Whatever the store holds and whoever signs: a transaction with a height is valid exactly when it has outputs
      and no inputs; one without is refused when it lacks either, and otherwise judged by its checks; an object
      that holds no transaction is refused. */
  lemma ShapeDecides(crypto: Crypto, obj: Value, reader: Reader)
    requires WellFormed(obj)
    ensures forall tx | Holds(obj, tx) ::
              && (tx.height.Some? ==>
                    Judgement(crypto, obj, reader) ==
                    if |tx.inputs| == 0 && |tx.outputs| > 0 then Valid else Invalid(InvalidFormat))
              && (tx.height.None? ==>
                    Judgement(crypto, obj, reader) ==
                    if |tx.inputs| == 0 || |tx.outputs| == 0 then Invalid(InvalidFormat)
                    else FirstFailure(Checks(crypto, obj, reader, tx)))
    ensures (forall tx :: !Holds(obj, tx)) ==> Judgement(crypto, obj, reader) == Invalid(InvalidFormat)
  {
    forall tx ensures TxOf(obj) == Some(tx) <==> Holds(obj, tx) {
      HoldsIff(obj, tx);
    }
  }
}
