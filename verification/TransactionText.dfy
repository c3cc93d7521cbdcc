/** A JSON form for every transaction, as the decoder of src/protocol/transaction.rs reads it. */
module TransactionText {
  import opened Wrappers
  import opened Json
  import opened JsonOrder
  import opened Canonical
  import opened Transaction
  import opened SignedTexts

  function OutpointValue(o: Outpoint): Value {
    Obj([Field("index", Num(o.index)), Field("txid", Str(o.txid))])
  }

  function InputValue(input: Input): Value {
    Obj([Field("outpoint", OutpointValue(input.outpoint)), Field("sig", Str(input.sig))])
  }

  function OutputValue(o: Output): Value {
    Obj([Field("pubkey", Str(o.pubkey)), Field("value", Num(o.value))])
  }

  function InputArray(inputs: seq<Input>): (r: seq<Value>)
    ensures |r| == |inputs| && forall i | 0 <= i < |r| :: r[i] == InputValue(inputs[i])
  {
    if inputs == [] then [] else [InputValue(inputs[0])] + InputArray(inputs[1..])
  }

  function OutputArray(outputs: seq<Output>): (r: seq<Value>)
    ensures |r| == |outputs| && forall i | 0 <= i < |r| :: r[i] == OutputValue(outputs[i])
  {
    if outputs == [] then [] else [OutputValue(outputs[0])] + OutputArray(outputs[1..])
  }

  function HeightValue(height: Option<nat>): Value {
    match height
    case None => Null
    case Some(n) => Num(n)
  }

  function TxFields(tx: Transaction): seq<Field> {
    [Field("height", HeightValue(tx.height)), Field("inputs", Arr(InputArray(tx.inputs))),
     Field("outputs", Arr(OutputArray(tx.outputs))), Field("type", Str(tx.kind))]
  }

  function TxValue(tx: Transaction): Value {
    Obj([Field("object", Obj(TxFields(tx)))])
  }

  /** What a `u64` can hold. */
  predicate Fits(tx: Transaction) {
    && (tx.height.Some? ==> tx.height.value <= 0xFFFF_FFFF_FFFF_FFFF)
    && (forall i | 0 <= i < |tx.inputs| :: tx.inputs[i].outpoint.index <= 0xFFFF_FFFF_FFFF_FFFF)
    && forall i | 0 <= i < |tx.outputs| :: tx.outputs[i].value <= 0xFFFF_FFFF_FFFF_FFFF
  }

  lemma TwoLookups(f: Field, g: Field)
    requires f.key != g.key
    ensures Lookup([f, g], f.key) == Some(f.value) && Lookup([f, g], g.key) == Some(g.value) && Distinct([f, g])
  {
    assert [f, g][1..] == [g] && [g][1..] == [];
    assert Lookup([g], g.key) == Some(g.value) && Lookup([], f.key) == None;
  }

  lemma OutpointDecodes(o: Outpoint)
    requires o.index <= MAX_U64
    ensures DecodeOutpoint(Some(OutpointValue(o))) == Some(o) && WellFormed(OutpointValue(o))
  {
    var f, g := Field("index", Num(o.index)), Field("txid", Str(o.txid));
    assert "index"[0] == 'i' && "txid"[0] == 't';
    TwoLookups(f, g);
  }

  lemma InputDecodes(input: Input)
    requires input.outpoint.index <= MAX_U64
    ensures DecodeInput(InputValue(input)) == Some(input) && WellFormed(InputValue(input))
  {
    var f, g := Field("outpoint", OutpointValue(input.outpoint)), Field("sig", Str(input.sig));
    assert "outpoint"[0] == 'o' && "sig"[0] == 's';
    TwoLookups(f, g);
    OutpointDecodes(input.outpoint);
  }

  lemma OutputDecodes(o: Output)
    requires o.value <= MAX_U64
    ensures DecodeOutput(OutputValue(o)) == Some(o) && WellFormed(OutputValue(o))
  {
    var f, g := Field("pubkey", Str(o.pubkey)), Field("value", Num(o.value));
    assert "pubkey"[0] == 'p' && "value"[0] == 'v';
    TwoLookups(f, g);
  }

  lemma ArraysDecode(tx: Transaction)
    requires Fits(tx)
    ensures DecodeInputs(InputArray(tx.inputs)) == Some(tx.inputs) && WellFormed(Arr(InputArray(tx.inputs)))
    ensures DecodeOutputs(OutputArray(tx.outputs)) == Some(tx.outputs) && WellFormed(Arr(OutputArray(tx.outputs)))
  {
    var ins, outs := InputArray(tx.inputs), OutputArray(tx.outputs);
    forall i | 0 <= i < |ins| ensures DecodeInput(ins[i]) == Some(tx.inputs[i]) && WellFormed(ins[i]) {
      InputDecodes(tx.inputs[i]);
    }
    forall i | 0 <= i < |outs| ensures DecodeOutput(outs[i]) == Some(tx.outputs[i]) && WellFormed(outs[i]) {
      OutputDecodes(tx.outputs[i]);
    }
    assert DecodeInputs(ins).value == tx.inputs;
    assert DecodeOutputs(outs).value == tx.outputs;
  }

  lemma FourLookups(f: Field, g: Field, h: Field, k: Field)
    requires f.key != g.key && f.key != h.key && f.key != k.key && g.key != h.key && g.key != k.key && h.key != k.key
    ensures var fs := [f, g, h, k];
            && Lookup(fs, f.key) == Some(f.value) && Lookup(fs, g.key) == Some(g.value)
            && Lookup(fs, h.key) == Some(h.value) && Lookup(fs, k.key) == Some(k.value) && Distinct(fs)
  {
    assert [f, g, h, k][1..] == [g, h, k] && [g, h, k][1..] == [h, k];
    TwoLookups(h, k);
    assert Lookup([h, k], g.key) == None && Lookup([h, k], f.key) == None by {
      assert [h, k][1..] == [k] && [k][1..] == [];
      assert Lookup([k], f.key) == None && Lookup([k], g.key) == None;
    }
    assert Lookup([g, h, k], h.key) == Some(h.value) && Lookup([g, h, k], k.key) == Some(k.value);
    assert Lookup([g, h, k], f.key) == None && Distinct([g, h, k]);
  }

  lemma TxLookups(tx: Transaction)
    ensures var fs := TxFields(tx);
            && Lookup(fs, "height") == Some(HeightValue(tx.height))
            && Lookup(fs, "inputs") == Some(Arr(InputArray(tx.inputs)))
            && Lookup(fs, "outputs") == Some(Arr(OutputArray(tx.outputs)))
            && Lookup(fs, "type") == Some(Str(tx.kind))
            && Distinct(fs) && OnlyKeys(fs, {"type", "height", "inputs", "outputs"})
  {
    assert "height"[0] == 'h' && "inputs"[0] == 'i' && "outputs"[0] == 'o' && "type"[0] == 't';
    FourLookups(Field("height", HeightValue(tx.height)), Field("inputs", Arr(InputArray(tx.inputs))),
                Field("outputs", Arr(OutputArray(tx.outputs))), Field("type", Str(tx.kind)));
  }

  lemma HeightDecodes(height: Option<nat>)
    ensures AsHeight(Some(HeightValue(height))) == Some(height)
  {
  }

  lemma FieldsDecode(tx: Transaction)
    requires Fits(tx)
    ensures DecodeTx(Obj(TxFields(tx))) == Some(tx)
  {
    TxLookups(tx);
    ArraysDecode(tx);
    HeightDecodes(tx.height);
    var v := Obj(TxFields(tx));
    assert v.Obj? && v.fields == TxFields(tx);
    assert AsArray(Lookup(v.fields, "inputs")) == Some(InputArray(tx.inputs));
    assert AsArray(Lookup(v.fields, "outputs")) == Some(OutputArray(tx.outputs));
    assert AsString(Lookup(v.fields, "type")) == Some(tx.kind);
  }

  lemma FieldsWellFormed(tx: Transaction)
    requires Fits(tx)
    ensures WellFormed(Obj(TxFields(tx)))
  {
    TxLookups(tx);
    ArraysDecode(tx);
    FourWellFormed(Field("height", HeightValue(tx.height)), Field("inputs", Arr(InputArray(tx.inputs))),
                   Field("outputs", Arr(OutputArray(tx.outputs))), Field("type", Str(tx.kind)));
  }

  lemma FourWellFormed(f: Field, g: Field, h: Field, k: Field)
    requires Distinct([f, g, h, k])
    requires WellFormed(f.value) && WellFormed(g.value) && WellFormed(h.value) && WellFormed(k.value)
    ensures WellFormed(Obj([f, g, h, k]))
  {
  }

  lemma OneLookup(f: Field)
    ensures Lookup([f], f.key) == Some(f.value) && Distinct([f])
  {
    assert [f][1..] == [];
    assert Lookup([], f.key) == None;
  }

  lemma ValueDecodes(tx: Transaction)
    requires Fits(tx)
    ensures TxOf(TxValue(tx)) == Some(tx) && WellFormed(TxValue(tx))
  {
    OneLookup(Field("object", Obj(TxFields(tx))));
    FieldsDecode(tx);
    FieldsWellFormed(tx);
  }

  // ---------- nesting ----------

  lemma InputDepth(input: Input)
    ensures Depth(InputValue(input)) <= 2
  {
    var o := OutpointValue(input.outpoint);
    ShallowFields(o.fields, 0);
    ShallowFields(InputValue(input).fields, 1);
  }

  lemma TxDepth(tx: Transaction)
    ensures Depth(TxValue(tx)) <= 5
  {
    forall i | 0 <= i < |tx.inputs| ensures Depth(InputArray(tx.inputs)[i]) <= 2 {
      InputDepth(tx.inputs[i]);
    }
    forall i | 0 <= i < |tx.outputs| ensures Depth(OutputArray(tx.outputs)[i]) <= 2 {
      ShallowFields(OutputValue(tx.outputs[i]).fields, 0);
    }
    ShallowItems(InputArray(tx.inputs), 2);
    ShallowItems(OutputArray(tx.outputs), 2);
    ShallowFields(TxFields(tx), 3);
    ShallowFields(TxValue(tx).fields, 4);
  }

  /** The canonical text of a transaction, when stored, is read as that transaction. */
  lemma StoredTextDecodes(tx: Transaction)
    requires Fits(tx)
    ensures StoredTx(CanonicalText(TxValue(tx))) == Some(tx)
  {
    ValueDecodes(tx);
    TxDepth(tx);
    CanonicalReadBack(TxValue(tx));
    SortedTx(TxValue(tx));
  }

  /** Sorting the keys of a value does not change the transaction it decodes to. */
  lemma SortedTx(v: Value)
    requires WellFormed(v)
    ensures TxOf(Sorted(v)) == TxOf(v)
  {
    SortedNormal(v);
    NormalFixpoint(Sorted(v));
    SameIffSortedEqual(Sorted(v), v);
    SameTx(Sorted(v), v);
  }
}
