/** Transaction decoding and validation (src/protocol/transaction.rs). */
module Transaction {
  import opened Wrappers
  import opened Json
  import opened JsonText
  import opened Canonical

  datatype Outpoint = Outpoint(txid: string, index: nat)
  datatype Input = Input(outpoint: Outpoint, sig: string)
  datatype Output = Output(pubkey: string, value: nat)
  datatype Transaction = Transaction(kind: string, height: Option<nat>, inputs: seq<Input>, outputs: seq<Output>)

  datatype TxError = InvalidFormat | UnknownObject | InvalidOutpoint | InvalidSignature | InvalidConservation

  /** `Panic` is an `unwrap` on nothing or an index out of range. */
  datatype Outcome = Valid | Invalid(error: TxError) | Panic

  /** What one `store.get` returned. */
  datatype Read = Failed | Missing | Found(bytes: string)

  /** The result of the read number `t` of a validation, for an id. */
  type Reader = (nat, string) -> Read

  function ReadAt(reader: Reader, t: nat, id: string): Read {
    reader(t, id)
  }

  /** Blake2s and Ed25519. `keyOf` and `sigOf` include hex decoding and the length check; `keyOf` also
      rejects bytes that are not a curve point. */
  datatype Crypto = Crypto(digest: string -> string,
                           keyOf: string -> Option<string>,
                           sigOf: string -> Option<string>,
                           verify: (string, string, string) -> bool)

  const U128_LIMIT: nat := 0x1_0000_0000_0000_0000_0000_0000_0000_0000
  const U64_LIMIT: nat := 0x1_0000_0000_0000_0000

  // ---------- decoding, with unknown fields denied ----------

  /** A missing or null height is no height. */
  function AsHeight(v: Option<Value>): Option<Option<nat>> {
    match v
    case None => Some(None)
    case Some(Null) => Some(None)
    case _ =>
      var n :- AsU64(v);
      Some(Some(n))
  }

  function DecodeOutpoint(v: Option<Value>): Option<Outpoint> {
    match v
    case Some(Obj(fs)) =>
      if !OnlyKeys(fs, {"txid", "index"}) then None else
      var txid :- AsString(Lookup(fs, "txid"));
      var index :- AsU64(Lookup(fs, "index"));
      Some(Outpoint(txid, index))
    case _ => None
  }

  function DecodeInput(v: Value): Option<Input> {
    if !v.Obj? || !OnlyKeys(v.fields, {"outpoint", "sig"}) then None else
    var outpoint :- DecodeOutpoint(Lookup(v.fields, "outpoint"));
    var sig :- AsString(Lookup(v.fields, "sig"));
    Some(Input(outpoint, sig))
  }

  function DecodeOutput(v: Value): Option<Output> {
    if !v.Obj? || !OnlyKeys(v.fields, {"pubkey", "value"}) then None else
    var pubkey :- AsString(Lookup(v.fields, "pubkey"));
    var value :- AsU64(Lookup(v.fields, "value"));
    Some(Output(pubkey, value))
  }

  function DecodeInputs(vs: seq<Value>): (r: Option<seq<Input>>)
    ensures r.Some? <==> forall i | 0 <= i < |vs| :: DecodeInput(vs[i]).Some?
    ensures r.Some? ==> |r.value| == |vs| && forall i | 0 <= i < |vs| :: DecodeInput(vs[i]) == Some(r.value[i])
  {
    if vs == [] then Some([]) else
    var head :- DecodeInput(vs[0]);
    var tail :- DecodeInputs(vs[1..]);
    Some([head] + tail)
  }

  function DecodeOutputs(vs: seq<Value>): (r: Option<seq<Output>>)
    ensures r.Some? <==> forall i | 0 <= i < |vs| :: DecodeOutput(vs[i]).Some?
    ensures r.Some? ==> |r.value| == |vs| && forall i | 0 <= i < |vs| :: DecodeOutput(vs[i]) == Some(r.value[i])
  {
    if vs == [] then Some([]) else
    var head :- DecodeOutput(vs[0]);
    var tail :- DecodeOutputs(vs[1..]);
    Some([head] + tail)
  }

  function DecodeTx(v: Value): Option<Transaction> {
    if !v.Obj? || !OnlyKeys(v.fields, {"type", "height", "inputs", "outputs"}) then None else
    var kind :- AsString(Lookup(v.fields, "type"));
    var height :- AsHeight(Lookup(v.fields, "height"));
    var inputValues :- AsArray(Lookup(v.fields, "inputs"));
    var inputs :- DecodeInputs(inputValues);
    var outputValues :- AsArray(Lookup(v.fields, "outputs"));
    var outputs :- DecodeOutputs(outputValues);
    Some(Transaction(kind, height, inputs, outputs))
  }

  /** The transaction under the key `object`. */
  function TxOf(obj: Value): Option<Transaction> {
    if !obj.Obj? then None else
    var payload :- Lookup(obj.fields, "object");
    DecodeTx(payload)
  }

  function StoredTx(bytes: string): Option<Transaction> {
    var v :- FromStr(bytes);
    TxOf(v)
  }

  // ---------- blanking signatures ----------

  /** `Map::insert`: replaces the value, or adds the field. */
  function Put(fs: seq<Field>, key: string, v: Value): seq<Field> {
    if fs == [] then [Field(key, v)]
    else if fs[0].key == key then [Field(key, v)] + fs[1..]
    else if !HasKey(fs, key) && Before(key, fs[0].key) then [Field(key, v)] + fs
    else [fs[0]] + Put(fs[1..], key, v)
  }

  function BlankInput(v: Value): Value {
    if v.Obj? then Obj(Put(v.fields, "sig", Str(""))) else v
  }

  function BlankInputs(vs: seq<Value>): seq<Value> {
    seq(|vs|, i requires 0 <= i < |vs| => BlankInput(vs[i]))
  }

  /** An object whose `object` is an object whose `inputs` is an array. */
  predicate HasInputs(obj: Value) {
    && obj.Obj? && HasKey(obj.fields, "object")
    && var payload := Lookup(obj.fields, "object").value;
    && payload.Obj? && AsArray(Lookup(payload.fields, "inputs")).Some?
  }

  function Payload(obj: Value): seq<Field>
    requires HasInputs(obj)
  {
    Lookup(obj.fields, "object").value.fields
  }

  function InputValues(obj: Value): seq<Value>
    requires HasInputs(obj)
  {
    Lookup(Payload(obj), "inputs").value.items
  }

  function Blank(obj: Value): Value {
    if HasInputs(obj)
    then Obj(Put(obj.fields, "object", Obj(Put(Payload(obj), "inputs", Arr(BlankInputs(InputValues(obj)))))))
    else obj
  }

  /** The text every input of the transaction signs. */
  function SignedText(obj: Value): string {
    CanonicalText(Blank(obj))
  }

  /** The in-place update of a copy of the object. */
  method BlankEach(inputs: seq<Value>) returns (items: seq<Value>)
    ensures items == BlankInputs(inputs)
  {
    items := inputs;
    for i := 0 to |items|
      invariant |items| == |inputs|
      invariant items == BlankInputs(inputs)[..i] + inputs[i..]
    {
      if items[i].Obj? {
        items := items[i := Obj(Put(items[i].fields, "sig", Str("")))];
      }
    }
  }

  method BlankSignatures(obj: Value) returns (sigObj: Value)
    ensures sigObj == Blank(obj)
  {
    sigObj := obj;
    if sigObj.Obj? {
      var wrapper := sigObj.fields;
      if HasKey(wrapper, "object") {
        var inner := Lookup(wrapper, "object").value;
        if inner.Obj? {
          var inputs := AsArray(Lookup(inner.fields, "inputs"));
          if inputs.Some? {
            var items := BlankEach(inputs.value);
            inner := Obj(Put(inner.fields, "inputs", Arr(items)));
            sigObj := Obj(Put(wrapper, "object", inner));
          }
        }
      }
    }
  }

  // ---------- the checks, one by one ----------

  /** First pass: the output an input spends. */
  function Resolve(read: Read, index: nat): Result<Output, TxError> {
    match read
    case Failed => Err(UnknownObject)
    case Missing => Err(InvalidOutpoint)
    case Found(bytes) =>
      var parent := StoredTx(bytes);
      if parent.None? then Err(InvalidFormat)
      else if index >= |parent.value.outputs| then Err(InvalidOutpoint)
      else Ok(parent.value.outputs[index])
  }

  function ResolveInput(reader: Reader, inputs: seq<Input>, i: nat): Result<Output, TxError>
    requires i < |inputs|
  {
    Resolve(ReadAt(reader, i, inputs[i].outpoint.txid), inputs[i].outpoint.index)
  }

  /** Mathematical sum of the outputs the first `n` inputs spend, each counted as often as spent. */
  function SpentValue(reader: Reader, inputs: seq<Input>, n: nat): nat
    requires n <= |inputs|
  {
    if n == 0 then 0
    else
      var o := ResolveInput(reader, inputs, n - 1);
      SpentValue(reader, inputs, n - 1) + if o.Ok? then o.value.value else 0
  }

  function CreatedValue(outputs: seq<Output>): nat {
    if outputs == [] then 0 else outputs[0].value + CreatedValue(outputs[1..])
  }

  function InputCheck(reader: Reader, inputs: seq<Input>, i: nat): Outcome
    requires i < |inputs|
  {
    match ResolveInput(reader, inputs, i)
    case Err(e) => Invalid(e)
    case Ok(_) => if SpentValue(reader, inputs, i + 1) >= U128_LIMIT then Invalid(InvalidConservation) else Valid
  }

  function ConservationCheck(reader: Reader, tx: Transaction): Outcome {
    if CreatedValue(tx.outputs) >= U128_LIMIT || SpentValue(reader, tx.inputs, |tx.inputs|) < CreatedValue(tx.outputs)
    then Invalid(InvalidConservation) else Valid
  }

  /** Second pass: the signature of an input under the key of the output it spends. */
  function Verify(crypto: Crypto, text: string, read: Read, input: Input): Outcome {
    match read
    case Failed => Invalid(UnknownObject)
    case Missing => Panic
    case Found(bytes) =>
      var parent := StoredTx(bytes);
      if parent.None? then Invalid(InvalidFormat)
      else if input.outpoint.index >= |parent.value.outputs| then Panic
      else
        var key := (crypto.keyOf)(parent.value.outputs[input.outpoint.index].pubkey);
        var sig := (crypto.sigOf)(input.sig);
        if key.None? then Invalid(InvalidFormat)
        else if sig.None? || !(crypto.verify)(key.value, text, sig.value) then Invalid(InvalidSignature)
        else Valid
  }

  /** The second loop's read for input `i` comes after all reads of the first loop. */
  function SecondRead(inputs: seq<Input>, i: nat): nat {
    |inputs| + i
  }

  function VerifyCheck(crypto: Crypto, text: string, reader: Reader, inputs: seq<Input>, i: nat): Outcome
    requires i < |inputs|
  {
    Verify(crypto, text, ReadAt(reader, SecondRead(inputs, i), inputs[i].outpoint.txid), inputs[i])
  }

  /** The checks of the first loop from input `i` on. */
  function InputChecks(reader: Reader, inputs: seq<Input>, i: nat): seq<Outcome>
    requires i <= |inputs|
    decreases |inputs| - i
  {
    if i == |inputs| then [] else [InputCheck(reader, inputs, i)] + InputChecks(reader, inputs, i + 1)
  }

  /** The checks of the second loop from input `i` on. */
  function VerifyChecks(crypto: Crypto, text: string, reader: Reader, inputs: seq<Input>, i: nat): seq<Outcome>
    requires i <= |inputs|
    decreases |inputs| - i
  {
    if i == |inputs| then []
    else [VerifyCheck(crypto, text, reader, inputs, i)] + VerifyChecks(crypto, text, reader, inputs, i + 1)
  }

  /** Every check of a transaction that is not a coinbase, in the order of the code. */
  function Checks(crypto: Crypto, obj: Value, reader: Reader, tx: Transaction): seq<Outcome> {
    InputChecks(reader, tx.inputs, 0) + [ConservationCheck(reader, tx)]
    + VerifyChecks(crypto, SignedText(obj), reader, tx.inputs, 0)
  }

  function FirstFailure(checks: seq<Outcome>): Outcome {
    if checks == [] then Valid
    else if checks[0] != Valid then checks[0]
    else FirstFailure(checks[1..])
  }

  /** A coinbase has no inputs, any other transaction has some; both have outputs. */
  predicate WellShaped(tx: Transaction) {
    tx.outputs != [] && (tx.height.Some? <==> tx.inputs == [])
  }

  function Judgement(crypto: Crypto, obj: Value, reader: Reader): Outcome {
    match TxOf(obj)
    case None => Invalid(InvalidFormat)
    case Some(tx) =>
      if !WellShaped(tx) then Invalid(InvalidFormat)
      else if tx.height.Some? then Valid
      else FirstFailure(Checks(crypto, obj, reader, tx))
  }

  // ---------- the code ----------

  /** `checked_add`. */
  function CheckedAdd(a: nat, b: nat): Option<nat> {
    if a + b >= U128_LIMIT then None else Some(a + b)
  }

  /** `try_fold` over the outputs. */
  function TryFold(outputs: seq<Output>, acc: nat): Option<nat> {
    if outputs == [] then Some(acc)
    else
      var next :- CheckedAdd(acc, outputs[0].value);
      TryFold(outputs[1..], next)
  }

  lemma {:induction false} TryFoldIsExact(outputs: seq<Output>, acc: nat)
    requires acc < U128_LIMIT
    ensures TryFold(outputs, acc) ==
            if acc + CreatedValue(outputs) >= 0x1_0000_0000_0000_0000_0000_0000_0000_0000 then None
            else Some(acc + CreatedValue(outputs))
  {
    if outputs != [] && acc + outputs[0].value < U128_LIMIT {
      TryFoldIsExact(outputs[1..], acc + outputs[0].value);
    }
  }

  lemma {:induction false} FirstFailureConcat(a: seq<Outcome>, b: seq<Outcome>)
    ensures FirstFailure(a + b) == if FirstFailure(a) == Valid then FirstFailure(b) else FirstFailure(a)
  {
    if a == [] {
      assert a + b == b;
    } else {
      assert (a + b)[1..] == a[1..] + b;
      FirstFailureConcat(a[1..], b);
    }
  }

  /** One turn of the first loop, up to the addition. */
  method ResolveParent(reader: Reader, inputs: seq<Input>, i: nat) returns (r: Result<Output, TxError>)
    requires i < |inputs|
    ensures r == ResolveInput(reader, inputs, i)
  {
    var input := inputs[i];
    var read := ReadAt(reader, i, input.outpoint.txid);
    if read.Failed? {
      return Err(UnknownObject);
    }
    if read.Missing? {
      return Err(InvalidOutpoint);
    }
    var parentTx := StoredTx(read.bytes);
    if parentTx.None? {
      return Err(InvalidFormat);
    }
    if input.outpoint.index >= |parentTx.value.outputs| {
      return Err(InvalidOutpoint);
    }
    r := Ok(parentTx.value.outputs[input.outpoint.index]);
  }

  lemma InputStep(reader: Reader, inputs: seq<Input>, i: nat)
    requires i < |inputs|
    ensures var o := ResolveInput(reader, inputs, i);
            var sum := SpentValue(reader, inputs, i);
            && SpentValue(reader, inputs, i + 1) == sum + (if o.Ok? then o.value.value else 0)
            && FirstFailure(InputChecks(reader, inputs, i)) ==
               if o.Err? then Invalid(o.error)
               else if sum + o.value.value >= U128_LIMIT then Invalid(InvalidConservation)
               else FirstFailure(InputChecks(reader, inputs, i + 1))
  {
    assert InputChecks(reader, inputs, i)[1..] == InputChecks(reader, inputs, i + 1);
  }

  /** One turn of the first loop. */
  method AddParent(reader: Reader, inputs: seq<Input>, i: nat, sumInputs: nat) returns (r: Result<nat, TxError>)
    requires i < |inputs| && sumInputs == SpentValue(reader, inputs, i)
    ensures InputCheck(reader, inputs, i) == if r.Ok? then Valid else Invalid(r.error)
    ensures r.Ok? ==> r.value == SpentValue(reader, inputs, i + 1)
  {
    var output := ResolveParent(reader, inputs, i);
    if output.Err? {
      return Err(output.error);
    }
    var next := CheckedAdd(sumInputs, output.value.value);
    r := if next.None? then Err(InvalidConservation) else Ok(next.value);
  }

  /** The first loop: resolves every outpoint and sums what they are worth. */
  method SumInputs(reader: Reader, tx: Transaction) returns (r: Result<nat, TxError>)
    ensures FirstFailure(InputChecks(reader, tx.inputs, 0)) == if r.Ok? then Valid else Invalid(r.error)
    ensures r.Ok? ==> r.value == SpentValue(reader, tx.inputs, |tx.inputs|)
  {
    var sumInputs := 0;
    for i := 0 to |tx.inputs|
      invariant sumInputs == SpentValue(reader, tx.inputs, i)
      invariant FirstFailure(InputChecks(reader, tx.inputs, 0)) == FirstFailure(InputChecks(reader, tx.inputs, i))
    {
      InputStep(reader, tx.inputs, i);
      var next := AddParent(reader, tx.inputs, i, sumInputs);
      if next.Err? {
        return next;
      }
      sumInputs := next.value;
    }
    r := Ok(sumInputs);
  }

  /** One turn of the second loop. */
  method VerifyInput(crypto: Crypto, text: string, reader: Reader, inputs: seq<Input>, i: nat) returns (r: Outcome)
    requires i < |inputs|
    ensures r == VerifyCheck(crypto, text, reader, inputs, i)
  {
    var input := inputs[i];
    var read := ReadAt(reader, SecondRead(inputs, i), input.outpoint.txid);
    if read.Failed? {
      return Invalid(UnknownObject);
    }
    if read.Missing? {
      return Panic;
    }
    var parentTx := StoredTx(read.bytes);
    if parentTx.None? {
      return Invalid(InvalidFormat);
    }
    if input.outpoint.index >= |parentTx.value.outputs| {
      return Panic;
    }
    var key := (crypto.keyOf)(parentTx.value.outputs[input.outpoint.index].pubkey);
    if key.None? {
      return Invalid(InvalidFormat);
    }
    var sig := (crypto.sigOf)(input.sig);
    if sig.None? {
      return Invalid(InvalidSignature);
    }
    if !(crypto.verify)(key.value, text, sig.value) {
      return Invalid(InvalidSignature);
    }
    r := Valid;
  }

  /** The verdict of the second loop from input `i` on. */
  function VerdictFrom(crypto: Crypto, text: string, reader: Reader, inputs: seq<Input>, i: nat): Outcome
    requires i <= |inputs|
  {
    FirstFailure(VerifyChecks(crypto, text, reader, inputs, i))
  }

  lemma VerifyStep(crypto: Crypto, text: string, reader: Reader, inputs: seq<Input>, i: nat)
    requires i < |inputs|
    ensures var check := VerifyCheck(crypto, text, reader, inputs, i);
            VerdictFrom(crypto, text, reader, inputs, i) ==
            if check != Valid then check else VerdictFrom(crypto, text, reader, inputs, i + 1)
  {
    var checks := VerifyChecks(crypto, text, reader, inputs, i);
    assert checks[0] == VerifyCheck(crypto, text, reader, inputs, i);
    assert checks[1..] == VerifyChecks(crypto, text, reader, inputs, i + 1);
  }

  /** The second loop: reads every parent again and checks the signatures. */
  method VerifyInputs(crypto: Crypto, text: string, reader: Reader, tx: Transaction) returns (r: Outcome)
    ensures r == FirstFailure(VerifyChecks(crypto, text, reader, tx.inputs, 0))
  {
    ghost var verdict := VerdictFrom(crypto, text, reader, tx.inputs, 0);
    for i := 0 to |tx.inputs|
      invariant VerdictFrom(crypto, text, reader, tx.inputs, i) == verdict
    {
      VerifyStep(crypto, text, reader, tx.inputs, i);
      r := VerifyInput(crypto, text, reader, tx.inputs, i);
      if r != Valid {
        return;
      }
    }
    r := Valid;
  }

  /** Returns the failure of the first failing check in code order, or `Valid`. */
  method ValidateTransaction(crypto: Crypto, obj: Value, reader: Reader) returns (r: Outcome)
    ensures r == Judgement(crypto, obj, reader)
  {
    var decoded := TxOf(obj);
    if decoded.None? {
      return Invalid(InvalidFormat);
    }
    var tx := decoded.value;
    if tx.height.Some? {
      if tx.inputs != [] || tx.outputs == [] {
        return Invalid(InvalidFormat);
      }
      return Valid;
    }
    if tx.inputs == [] || tx.outputs == [] {
      return Invalid(InvalidFormat);
    }
    ghost var conservation := ConservationCheck(reader, tx);
    ghost var later := VerifyChecks(crypto, SignedText(obj), reader, tx.inputs, 0);
    FirstFailureConcat(InputChecks(reader, tx.inputs, 0), [conservation] + later);
    assert Checks(crypto, obj, reader, tx) == InputChecks(reader, tx.inputs, 0) + ([conservation] + later);
    FirstFailureConcat([conservation], later);

    var sumInputs := SumInputs(reader, tx);
    if sumInputs.Err? {
      return Invalid(sumInputs.error);
    }
    TryFoldIsExact(tx.outputs, 0);
    var sumOutputs := TryFold(tx.outputs, 0);
    if sumOutputs.None? {
      return Invalid(InvalidConservation);
    }
    if sumInputs.value < sumOutputs.value {
      return Invalid(InvalidConservation);
    }
    var sigObj := BlankSignatures(obj);
    var canonSigObj := ToCanonicalJson(sigObj);
    r := VerifyInputs(crypto, canonSigObj, reader, tx);
  }
}
