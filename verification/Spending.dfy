/** What a verdict of `validate_transaction` means, over a fixed store and over one that grows while
    the transaction is being validated. */
module Spending {
  import opened Wrappers
  import opened Json
  import opened JsonText
  import opened JsonOrder
  import opened Canonical
  import opened Storage
  import opened Transaction

  // ---------- lists of checks ----------

  predicate AllValid(checks: seq<Outcome>) {
    forall c | c in checks :: c == Valid
  }

  lemma {:induction false} ValidWhenAllValid(checks: seq<Outcome>)
    ensures FirstFailure(checks) == Valid <==> AllValid(checks)
  {
    if checks != [] {
      ValidWhenAllValid(checks[1..]);
      assert checks[0] in checks;
      assert forall c | c in checks[1..] :: c in checks;
      assert forall c | c in checks :: c == checks[0] || c in checks[1..];
    }
  }

  /** Check `i` fails and every earlier one passes. */
  predicate FirstAt(checks: seq<Outcome>, i: nat) {
    i < |checks| && checks[i] != Valid && forall j | 0 <= j < i :: checks[j] == Valid
  }

  lemma {:induction false} FirstAtIsVerdict(checks: seq<Outcome>, i: nat)
    requires FirstAt(checks, i)
    ensures FirstFailure(checks) == checks[i]
  {
    if i > 0 {
      FirstAtIsVerdict(checks[1..], i - 1);
    }
  }

  lemma {:induction false} VerdictIsFirstAt(checks: seq<Outcome>) returns (i: nat)
    requires FirstFailure(checks) != Valid
    ensures FirstAt(checks, i) && checks[i] == FirstFailure(checks)
  {
    if checks[0] != Valid {
      i := 0;
    } else {
      i := VerdictIsFirstAt(checks[1..]);
      i := i + 1;
    }
  }

  /** The verdict is a failure exactly when that is the first check, in code order, that fails. */
  lemma FirstFailureIsFirst(checks: seq<Outcome>, failure: Outcome)
    requires failure != Valid
    ensures FirstFailure(checks) == failure <==> exists i: nat :: FirstAt(checks, i) && checks[i] == failure
  {
    if FirstFailure(checks) == failure {
      var i := VerdictIsFirstAt(checks);
    } else if i: nat :| FirstAt(checks, i) && checks[i] == failure {
      FirstAtIsVerdict(checks, i);
    }
  }

  lemma {:induction false} InputChecksMembers(reader: Reader, inputs: seq<Input>, i: nat)
    requires i <= |inputs|
    ensures forall c :: c in InputChecks(reader, inputs, i) <==>
                        exists j | i <= j < |inputs| :: c == InputCheck(reader, inputs, j)
    decreases |inputs| - i
  {
    if i < |inputs| {
      InputChecksMembers(reader, inputs, i + 1);
    }
  }

  lemma {:induction false} VerifyChecksMembers(crypto: Crypto, text: string, reader: Reader, inputs: seq<Input>, i: nat)
    requires i <= |inputs|
    ensures forall c :: c in VerifyChecks(crypto, text, reader, inputs, i) <==>
                        exists j | i <= j < |inputs| :: c == VerifyCheck(crypto, text, reader, inputs, j)
    decreases |inputs| - i
  {
    if i < |inputs| {
      VerifyChecksMembers(crypto, text, reader, inputs, i + 1);
    }
  }

  predicate AllInputsValid(reader: Reader, inputs: seq<Input>) {
    forall i | 0 <= i < |inputs| :: InputCheck(reader, inputs, i) == Valid
  }

  predicate AllVerified(crypto: Crypto, text: string, reader: Reader, inputs: seq<Input>) {
    forall i | 0 <= i < |inputs| :: VerifyCheck(crypto, text, reader, inputs, i) == Valid
  }

  lemma FirstLoopPasses(reader: Reader, inputs: seq<Input>)
    ensures FirstFailure(InputChecks(reader, inputs, 0)) == Valid <==> AllInputsValid(reader, inputs)
  {
    ValidWhenAllValid(InputChecks(reader, inputs, 0));
    InputChecksMembers(reader, inputs, 0);
    if AllValid(InputChecks(reader, inputs, 0)) {
      forall i | 0 <= i < |inputs| ensures InputCheck(reader, inputs, i) == Valid {
        assert InputCheck(reader, inputs, i) in InputChecks(reader, inputs, 0);
      }
    }
  }

  lemma SecondLoopPasses(crypto: Crypto, text: string, reader: Reader, inputs: seq<Input>)
    ensures FirstFailure(VerifyChecks(crypto, text, reader, inputs, 0)) == Valid <==>
            AllVerified(crypto, text, reader, inputs)
  {
    ValidWhenAllValid(VerifyChecks(crypto, text, reader, inputs, 0));
    VerifyChecksMembers(crypto, text, reader, inputs, 0);
    if AllValid(VerifyChecks(crypto, text, reader, inputs, 0)) {
      forall i | 0 <= i < |inputs| ensures VerifyCheck(crypto, text, reader, inputs, i) == Valid {
        assert VerifyCheck(crypto, text, reader, inputs, i) in VerifyChecks(crypto, text, reader, inputs, 0);
      }
    }
  }

  lemma {:induction false} FirstFailureMember(checks: seq<Outcome>)
    ensures FirstFailure(checks) == Valid || FirstFailure(checks) in checks
  {
    if checks != [] {
      FirstFailureMember(checks[1..]);
    }
  }

  /** A well-shaped transaction that is not a coinbase. */
  predicate Spends(obj: Value) {
    TxOf(obj).Some? && WellShaped(TxOf(obj).value) && TxOf(obj).value.height.None?
  }

  /** The verdict on a transaction that is not a coinbase, loop by loop. */
  lemma JudgementParts(crypto: Crypto, obj: Value, reader: Reader)
    requires Spends(obj)
    ensures var tx := TxOf(obj).value;
            var first := FirstFailure(InputChecks(reader, tx.inputs, 0));
            Judgement(crypto, obj, reader) ==
            if first != Valid then first
            else if ConservationCheck(reader, tx) != Valid then ConservationCheck(reader, tx)
            else FirstFailure(VerifyChecks(crypto, SignedText(obj), reader, tx.inputs, 0))
  {
    var tx := TxOf(obj).value;
    var inputs := InputChecks(reader, tx.inputs, 0);
    var later := VerifyChecks(crypto, SignedText(obj), reader, tx.inputs, 0);
    FirstFailureConcat(inputs, [ConservationCheck(reader, tx)] + later);
    FirstFailureConcat([ConservationCheck(reader, tx)], later);
    assert Checks(crypto, obj, reader, tx) == inputs + ([ConservationCheck(reader, tx)] + later);
  }

  /** The verdict is `Valid` exactly when every check passes. */
  lemma ValidIffAllChecksPass(crypto: Crypto, obj: Value, reader: Reader)
    requires Spends(obj)
    ensures var tx := TxOf(obj).value;
            Judgement(crypto, obj, reader) == Valid <==>
            && AllInputsValid(reader, tx.inputs)
            && ConservationCheck(reader, tx) == Valid
            && AllVerified(crypto, SignedText(obj), reader, tx.inputs)
  {
    var tx := TxOf(obj).value;
    JudgementParts(crypto, obj, reader);
    FirstLoopPasses(reader, tx.inputs);
    SecondLoopPasses(crypto, SignedText(obj), reader, tx.inputs);
  }

  // ---------- exact arithmetic ----------

  lemma {:induction false} OutputsAreU64(vs: seq<Value>)
    requires WellFormed(Arr(vs)) && DecodeOutputs(vs).Some?
    ensures forall o | o in DecodeOutputs(vs).value :: o.value < U64_LIMIT
  {
    var outputs := DecodeOutputs(vs).value;
    forall i | 0 <= i < |outputs| ensures outputs[i].value < U64_LIMIT {
      assert DecodeOutput(vs[i]) == Some(outputs[i]);
      assert WellFormed(vs[i]) && AsU64(Lookup(vs[i].fields, "value")) == Some(outputs[i].value);
      var k := LookupIndex(vs[i].fields, "value");
    }
  }

  lemma TxOutputsAreU64(obj: Value)
    requires WellFormed(obj) && TxOf(obj).Some?
    ensures forall o | o in TxOf(obj).value.outputs :: o.value < U64_LIMIT
  {
    var i := LookupIndex(obj.fields, "object");
    var payload := Lookup(obj.fields, "object").value;
    var j := LookupIndex(payload.fields, "outputs");
    OutputsAreU64(AsArray(Lookup(payload.fields, "outputs")).value);
  }

  lemma StoredOutputsAreU64(bytes: string)
    requires StoredTx(bytes).Some?
    ensures forall o | o in StoredTx(bytes).value.outputs :: o.value < U64_LIMIT
  {
    RecanonicalisingIsIdentity(bytes);
    NormalFixpoint(FromStr(bytes).value);
    TxOutputsAreU64(FromStr(bytes).value);
  }

  lemma {:induction false} SpentValueBound(reader: Reader, inputs: seq<Input>, n: nat)
    requires n <= |inputs|
    ensures SpentValue(reader, inputs, n) <= n * (U64_LIMIT - 1)
  {
    if n > 0 {
      SpentValueBound(reader, inputs, n - 1);
      var read := ReadAt(reader, n - 1, inputs[n - 1].outpoint.txid);
      if ResolveInput(reader, inputs, n - 1).Ok? {
        StoredOutputsAreU64(read.bytes);
      }
    }
  }

  lemma {:induction false} CreatedValueBound(outputs: seq<Output>)
    requires forall o | o in outputs :: o.value < U64_LIMIT
    ensures CreatedValue(outputs) <= |outputs| * (U64_LIMIT - 1)
  {
    if outputs != [] {
      CreatedValueBound(outputs[1..]);
    }
  }

  /** What the type `Vec` guarantees on a 64-bit machine. */
  predicate Countable(tx: Transaction) {
    |tx.inputs| < U64_LIMIT && |tx.outputs| < U64_LIMIT
  }

  /** No prefix of either sum reaches 2^128, so neither overflow error is reachable and the comparison
      of the code is the comparison of the mathematical sums. */
  lemma ExactArithmetic(obj: Value, reader: Reader)
    requires WellFormed(obj) && TxOf(obj).Some? && Countable(TxOf(obj).value)
    ensures var tx := TxOf(obj).value;
            && (forall n | 0 <= n <= |tx.inputs| ::
                  SpentValue(reader, tx.inputs, n) < 0x1_0000_0000_0000_0000_0000_0000_0000_0000)
            && TryFold(tx.outputs, 0) == Some(CreatedValue(tx.outputs))
            && (forall i | 0 <= i < |tx.inputs| :: InputCheck(reader, tx.inputs, i) != Invalid(InvalidConservation))
            && (ConservationCheck(reader, tx) == Valid <==>
                CreatedValue(tx.outputs) <= SpentValue(reader, tx.inputs, |tx.inputs|))
  {
    var tx := TxOf(obj).value;
    forall n | 0 <= n <= |tx.inputs| ensures SpentValue(reader, tx.inputs, n) < U128_LIMIT {
      SpentValueBound(reader, tx.inputs, n);
    }
    TxOutputsAreU64(obj);
    CreatedValueBound(tx.outputs);
    TryFoldIsExact(tx.outputs, 0);
  }

  // ---------- a fixed store ----------

  function FixedReader(table: map<string, string>): Reader {
    (t: nat, id: string) => if id in table then Found(table[id]) else Missing
  }

  /** The output an input refers to. */
  function SpentOutput(table: map<string, string>, input: Input): Option<Output> {
    if input.outpoint.txid !in table then None else
    var parent :- StoredTx(table[input.outpoint.txid]);
    if input.outpoint.index < |parent.outputs| then Some(parent.outputs[input.outpoint.index]) else None
  }

  function TotalSpent(table: map<string, string>, inputs: seq<Input>): nat {
    if inputs == [] then 0
    else
      var last := SpentOutput(table, inputs[|inputs| - 1]);
      TotalSpent(table, inputs[..|inputs| - 1]) + if last.Some? then last.value.value else 0
  }

  /** The input's signature is one of the text under the key that owns the spent output. */
  predicate Authorised(crypto: Crypto, text: string, output: Output, input: Input) {
    var key := (crypto.keyOf)(output.pubkey);
    var sig := (crypto.sigOf)(input.sig);
    key.Some? && sig.Some? && (crypto.verify)(key.value, text, sig.value)
  }

  /** A well-shaped coinbase, or a transaction whose inputs all spend existing outputs, with their
      owners' signatures, for at least the value it creates. An output spent twice counts twice. */
  predicate Acceptable(crypto: Crypto, table: map<string, string>, obj: Value) {
    TxOf(obj).Some? &&
    var tx := TxOf(obj).value;
    WellShaped(tx) &&
    (tx.height.None? ==>
      && (forall i | 0 <= i < |tx.inputs| :: SpentOutput(table, tx.inputs[i]).Some?)
      && CreatedValue(tx.outputs) <= TotalSpent(table, tx.inputs)
      && forall i | 0 <= i < |tx.inputs| ::
           Authorised(crypto, SignedText(obj), SpentOutput(table, tx.inputs[i]).value, tx.inputs[i]))
  }

  // ---------- a store that grows between the reads ----------

  /** The table at each read of one validation. */
  type History = nat -> map<string, string>

  function TableAt(hist: History, t: nat): map<string, string> {
    hist(t)
  }

  /** A read looks at the table of its moment, or fails. */
  predicate ReadOk(reader: Reader, hist: History, t: nat, id: string) {
    match ReadAt(reader, t, id)
    case Failed => true
    case Missing => id !in TableAt(hist, t)
    case Found(bytes) => id in TableAt(hist, t) && bytes == TableAt(hist, t)[id]
  }

  ghost predicate ReadsFrom(reader: Reader, hist: History) {
    forall t: nat, id: string :: ReadOk(reader, hist, t, id)
  }

  /** At read `t` every entry certifies itself and has its canonical text in `texts`, and none is
      removed before the next read. */
  ghost predicate StepOk(digest: string -> string, hist: History, texts: iset<string>, t: nat) {
    && Certified(digest, TableAt(hist, t))
    && (forall id | id in TableAt(hist, t) :: CanonicalOf(TableAt(hist, t)[id]).value in texts)
    && TableAt(hist, t).Keys <= TableAt(hist, t + 1).Keys
  }

  ghost predicate Grows(digest: string -> string, hist: History, texts: iset<string>) {
    forall t: nat :: StepOk(digest, hist, texts, t)
  }

  lemma {:induction false} EntryStays(digest: string -> string, hist: History, texts: iset<string>,
                                      id: string, s: nat, t: nat)
    requires Grows(digest, hist, texts) && s <= t && id in TableAt(hist, s)
    ensures id in TableAt(hist, t)
    decreases t - s
  {
    if s < t {
      assert StepOk(digest, hist, texts, s);
      EntryStays(digest, hist, texts, id, s + 1, t);
    }
  }

  /** Once an id is stored, every later read of it parses to the same value. */
  lemma ValueStays(digest: string -> string, hist: History, texts: iset<string>, id: string, s: nat, t: nat)
    requires Grows(digest, hist, texts) && CollisionFree(digest, texts)
    requires s <= t && id in TableAt(hist, s)
    ensures id in TableAt(hist, t) && FromStr(TableAt(hist, s)[id]) == FromStr(TableAt(hist, t)[id])
  {
    EntryStays(digest, hist, texts, id, s, t);
    assert StepOk(digest, hist, texts, s) && StepOk(digest, hist, texts, t);
    SameIdSameValue(digest, id, TableAt(hist, s)[id], TableAt(hist, t)[id], texts);
  }

  lemma OutputStays(digest: string -> string, hist: History, texts: iset<string>, input: Input, s: nat, t: nat)
    requires Grows(digest, hist, texts) && CollisionFree(digest, texts)
    requires s <= t && SpentOutput(TableAt(hist, s), input).Some?
    ensures SpentOutput(TableAt(hist, t), input) == SpentOutput(TableAt(hist, s), input)
  {
    ValueStays(digest, hist, texts, input.outpoint.txid, s, t);
  }

  /** A read that succeeds sees the output the table of its moment has. */
  lemma ResolveSees(reader: Reader, hist: History, input: Input, t: nat)
    requires ReadsFrom(reader, hist)
    ensures var read := ReadAt(reader, t, input.outpoint.txid);
            var o := SpentOutput(TableAt(hist, t), input);
            && (o.Some? && !read.Failed? ==> Resolve(read, input.outpoint.index) == Ok(o.value))
            && (Resolve(read, input.outpoint.index).Ok? ==> o.Some? && !read.Failed?)
  {
    assert ReadOk(reader, hist, t, input.outpoint.txid);
  }

  /** The second check of an input whose output is known at that moment. */
  lemma VerifySees(crypto: Crypto, text: string, reader: Reader, hist: History, input: Input, t: nat)
    requires ReadsFrom(reader, hist) && SpentOutput(TableAt(hist, t), input).Some?
    ensures var read := ReadAt(reader, t, input.outpoint.txid);
            var verdict := Verify(crypto, text, read, input);
            && verdict != Panic
            && (verdict == Valid <==>
                !read.Failed? && Authorised(crypto, text, SpentOutput(TableAt(hist, t), input).value, input))
  {
    assert ReadOk(reader, hist, t, input.outpoint.txid);
  }

  /** The `unwrap` and the index of the second loop are safe: what the first loop found is still there,
      with the same outputs, whatever other connections have stored in between. */
  lemma SecondPassCannotPanic(crypto: Crypto, obj: Value, reader: Reader, hist: History, texts: iset<string>)
    requires ReadsFrom(reader, hist)
    requires Grows(crypto.digest, hist, texts) && CollisionFree(crypto.digest, texts)
    ensures Judgement(crypto, obj, reader) != Panic
  {
    if TxOf(obj).Some? && WellShaped(TxOf(obj).value) && TxOf(obj).value.height.None? {
      var inputs := TxOf(obj).value.inputs;
      forall i | 0 <= i < |inputs| && InputCheck(reader, inputs, i) == Valid
        ensures VerifyCheck(crypto, SignedText(obj), reader, inputs, i) != Panic
      {
        ResolveSees(reader, hist, inputs[i], i);
        OutputStays(crypto.digest, hist, texts, inputs[i], i, SecondRead(inputs, i));
        VerifySees(crypto, SignedText(obj), reader, hist, inputs[i], SecondRead(inputs, i));
      }
      NoPanicIfNoCheckPanics(crypto, obj, reader);
    }
  }

  /** Both loops see the same output, input by input. */
  lemma BothPassesAgree(digest: string -> string, reader: Reader, hist: History, texts: iset<string>,
                        inputs: seq<Input>, i: nat)
    requires ReadsFrom(reader, hist) && Grows(digest, hist, texts) && CollisionFree(digest, texts)
    requires i < |inputs| && ResolveInput(reader, inputs, i).Ok?
    requires !ReadAt(reader, SecondRead(inputs, i), inputs[i].outpoint.txid).Failed?
    ensures Resolve(ReadAt(reader, SecondRead(inputs, i), inputs[i].outpoint.txid), inputs[i].outpoint.index)
            == ResolveInput(reader, inputs, i)
  {
    ResolveSees(reader, hist, inputs[i], i);
    OutputStays(digest, hist, texts, inputs[i], i, SecondRead(inputs, i));
    ResolveSees(reader, hist, inputs[i], SecondRead(inputs, i));
  }

  /** The second pass reads every parent again: if the first one has gone since, validation panics. That stores only
      grow is what keeps it from that. */
  lemma GoneParentPanics(crypto: Crypto, obj: Value, reader: Reader)
    requires Spends(obj) && AllInputsValid(reader, TxOf(obj).value.inputs)
    requires ConservationCheck(reader, TxOf(obj).value) == Valid
    requires var inputs := TxOf(obj).value.inputs; ReadAt(reader, |inputs|, inputs[0].outpoint.txid) == Missing
    ensures Judgement(crypto, obj, reader) == Panic
  {
    var inputs := TxOf(obj).value.inputs;
    JudgementParts(crypto, obj, reader);
    FirstLoopPasses(reader, inputs);
    assert VerifyChecks(crypto, SignedText(obj), reader, inputs, 0)[0] == Panic;
  }

  lemma {:induction false} SpentIsTotal(reader: Reader, table: map<string, string>, inputs: seq<Input>, n: nat)
    requires n <= |inputs|
    requires forall i | 0 <= i < n :: SpentOutput(table, inputs[i]).Some?
    requires forall i | 0 <= i < n :: ResolveInput(reader, inputs, i) == Ok(SpentOutput(table, inputs[i]).value)
    ensures SpentValue(reader, inputs, n) == TotalSpent(table, inputs[..n])
  {
    if n > 0 {
      SpentIsTotal(reader, table, inputs, n - 1);
      assert inputs[..n][..n - 1] == inputs[..n - 1];
    }
  }

  /** A transaction acceptable when its validation starts is found valid, if no read fails. */
  lemma AcceptableIsFoundValid(crypto: Crypto, obj: Value, reader: Reader, hist: History, texts: iset<string>)
    requires ReadsFrom(reader, hist) && forall t: nat, id: string :: !ReadAt(reader, t, id).Failed?
    requires Grows(crypto.digest, hist, texts) && CollisionFree(crypto.digest, texts)
    requires WellFormed(obj) && (TxOf(obj).Some? ==> Countable(TxOf(obj).value))
    requires Acceptable(crypto, TableAt(hist, 0), obj)
    ensures Judgement(crypto, obj, reader) == Valid
  {
    var tx := TxOf(obj).value;
    if tx.height.None? {
      var start := TableAt(hist, 0);
      var inputs := tx.inputs;
      ExactArithmetic(obj, reader);
      forall i | 0 <= i < |inputs|
        ensures ResolveInput(reader, inputs, i) == Ok(SpentOutput(start, inputs[i]).value)
        ensures VerifyCheck(crypto, SignedText(obj), reader, inputs, i) == Valid
      {
        assert !ReadAt(reader, i, inputs[i].outpoint.txid).Failed?;
        assert !ReadAt(reader, SecondRead(inputs, i), inputs[i].outpoint.txid).Failed?;
        OutputStays(crypto.digest, hist, texts, inputs[i], 0, i);
        OutputStays(crypto.digest, hist, texts, inputs[i], 0, SecondRead(inputs, i));
        ResolveSees(reader, hist, inputs[i], i);
        VerifySees(crypto, SignedText(obj), reader, hist, inputs[i], SecondRead(inputs, i));
      }
      SpentIsTotal(reader, start, inputs, |inputs|);
      assert inputs[..|inputs|] == inputs;
      ValidIffAllChecksPass(crypto, obj, reader);
    }
  }

  /** A transaction found valid is acceptable in the store as it is when its validation ends. */
  lemma FoundValidIsAcceptable(crypto: Crypto, obj: Value, reader: Reader, hist: History, texts: iset<string>)
    requires ReadsFrom(reader, hist)
    requires Grows(crypto.digest, hist, texts) && CollisionFree(crypto.digest, texts)
    requires WellFormed(obj) && (TxOf(obj).Some? ==> Countable(TxOf(obj).value))
    requires Judgement(crypto, obj, reader) == Valid
    ensures Acceptable(crypto, TableAt(hist, 2 * |TxOf(obj).value.inputs|), obj)
  {
    var tx := TxOf(obj).value;
    if tx.height.None? {
      var inputs := tx.inputs;
      var end := TableAt(hist, 2 * |inputs|);
      ExactArithmetic(obj, reader);
      ValidIffAllChecksPass(crypto, obj, reader);
      forall i | 0 <= i < |inputs|
        ensures SpentOutput(end, inputs[i]).Some?
        ensures ResolveInput(reader, inputs, i) == Ok(SpentOutput(end, inputs[i]).value)
        ensures Authorised(crypto, SignedText(obj), SpentOutput(end, inputs[i]).value, inputs[i])
      {
        assert InputCheck(reader, inputs, i) == Valid;
        assert VerifyCheck(crypto, SignedText(obj), reader, inputs, i) == Valid;
        ResolveSees(reader, hist, inputs[i], i);
        OutputStays(crypto.digest, hist, texts, inputs[i], i, SecondRead(inputs, i));
        VerifySees(crypto, SignedText(obj), reader, hist, inputs[i], SecondRead(inputs, i));
        OutputStays(crypto.digest, hist, texts, inputs[i], i, 2 * |inputs|);
      }
      SpentIsTotal(reader, end, inputs, |inputs|);
      assert inputs[..|inputs|] == inputs;
    }
  }

  // ---------- the verdict over a store that does not change ----------

  lemma FixedSees(crypto: Crypto, text: string, table: map<string, string>, input: Input, t: nat)
    ensures var read := ReadAt(FixedReader(table), t, input.outpoint.txid);
            var o := SpentOutput(table, input);
            var verdict := Verify(crypto, text, read, input);
            && Resolve(read, input.outpoint.index).Ok? == o.Some?
            && (o.Some? ==>
                  && Resolve(read, input.outpoint.index) == Ok(o.value)
                  && verdict != Panic
                  && (verdict == Valid <==> Authorised(crypto, text, o.value, input)))
  {
  }

  lemma NoPanicIfNoCheckPanics(crypto: Crypto, obj: Value, reader: Reader)
    requires Spends(obj)
    requires var inputs := TxOf(obj).value.inputs;
             forall i | 0 <= i < |inputs| && InputCheck(reader, inputs, i) == Valid ::
               VerifyCheck(crypto, SignedText(obj), reader, inputs, i) != Panic
    ensures Judgement(crypto, obj, reader) != Panic
  {
    var inputs := TxOf(obj).value.inputs;
    JudgementParts(crypto, obj, reader);
    var first := InputChecks(reader, inputs, 0);
    InputChecksMembers(reader, inputs, 0);
    FirstFailureMember(first);
    if FirstFailure(first) == Valid {
      FirstLoopPasses(reader, inputs);
      VerifyChecksMembers(crypto, SignedText(obj), reader, inputs, 0);
      FirstFailureMember(VerifyChecks(crypto, SignedText(obj), reader, inputs, 0));
    }
  }

  /** What both passes find for one input of a fixed store. */
  predicate FixedInput(crypto: Crypto, text: string, reader: Reader, table: map<string, string>,
                       inputs: seq<Input>, i: nat)
    requires i < |inputs|
  {
    var spent := SpentOutput(table, inputs[i]);
    && ResolveInput(reader, inputs, i).Ok? == spent.Some?
    && (spent.Some? ==>
          && ResolveInput(reader, inputs, i) == Ok(spent.value)
          && VerifyCheck(crypto, text, reader, inputs, i) != Panic
          && (VerifyCheck(crypto, text, reader, inputs, i) == Valid <==>
              Authorised(crypto, text, spent.value, inputs[i])))
  }

  predicate FixedInputs(crypto: Crypto, text: string, reader: Reader, table: map<string, string>, inputs: seq<Input>) {
    forall i | 0 <= i < |inputs| :: FixedInput(crypto, text, reader, table, inputs, i)
  }

  lemma FixedReaderSees(crypto: Crypto, text: string, table: map<string, string>, inputs: seq<Input>)
    ensures FixedInputs(crypto, text, FixedReader(table), table, inputs)
  {
    forall i | 0 <= i < |inputs| ensures FixedInput(crypto, text, FixedReader(table), table, inputs, i) {
      FixedSees(crypto, text, table, inputs[i], i);
      FixedSees(crypto, text, table, inputs[i], SecondRead(inputs, i));
    }
  }

  predicate AllSpendable(table: map<string, string>, inputs: seq<Input>) {
    forall i | 0 <= i < |inputs| :: SpentOutput(table, inputs[i]).Some?
  }

  lemma FixedFirstLoop(crypto: Crypto, obj: Value, reader: Reader, table: map<string, string>)
    requires WellFormed(obj) && Spends(obj) && Countable(TxOf(obj).value)
    requires FixedInputs(crypto, SignedText(obj), reader, table, TxOf(obj).value.inputs)
    ensures AllInputsValid(reader, TxOf(obj).value.inputs) <==> AllSpendable(table, TxOf(obj).value.inputs)
  {
    var inputs := TxOf(obj).value.inputs;
    ExactArithmetic(obj, reader);
    forall i | 0 <= i < |inputs|
      ensures InputCheck(reader, inputs, i) == Valid <==> SpentOutput(table, inputs[i]).Some?
    {
      assert FixedInput(crypto, SignedText(obj), reader, table, inputs, i);
    }
  }

  lemma FixedSum(crypto: Crypto, obj: Value, reader: Reader, table: map<string, string>)
    requires WellFormed(obj) && Spends(obj) && Countable(TxOf(obj).value)
    requires FixedInputs(crypto, SignedText(obj), reader, table, TxOf(obj).value.inputs)
    requires AllSpendable(table, TxOf(obj).value.inputs)
    ensures var tx := TxOf(obj).value;
            ConservationCheck(reader, tx) == Valid <==> CreatedValue(tx.outputs) <= TotalSpent(table, tx.inputs)
  {
    var inputs := TxOf(obj).value.inputs;
    ExactArithmetic(obj, reader);
    forall i | 0 <= i < |inputs| ensures ResolveInput(reader, inputs, i) == Ok(SpentOutput(table, inputs[i]).value) {
      assert FixedInput(crypto, SignedText(obj), reader, table, inputs, i);
    }
    SpentIsTotal(reader, table, inputs, |inputs|);
    assert inputs[..|inputs|] == inputs;
  }

  lemma FixedSecondLoop(crypto: Crypto, text: string, reader: Reader, table: map<string, string>, inputs: seq<Input>)
    requires FixedInputs(crypto, text, reader, table, inputs) && AllSpendable(table, inputs)
    ensures AllVerified(crypto, text, reader, inputs) <==>
            forall i | 0 <= i < |inputs| :: Authorised(crypto, text, SpentOutput(table, inputs[i]).value, inputs[i])
  {
    forall i | 0 <= i < |inputs|
      ensures VerifyCheck(crypto, text, reader, inputs, i) == Valid <==>
              Authorised(crypto, text, SpentOutput(table, inputs[i]).value, inputs[i])
    {
      assert FixedInput(crypto, text, reader, table, inputs, i);
    }
  }

  lemma FixedVerdict(crypto: Crypto, obj: Value, reader: Reader, table: map<string, string>)
    requires WellFormed(obj) && Spends(obj) && Countable(TxOf(obj).value)
    requires FixedInputs(crypto, SignedText(obj), reader, table, TxOf(obj).value.inputs)
    ensures Judgement(crypto, obj, reader) == Valid <==> Acceptable(crypto, table, obj)
  {
    var inputs := TxOf(obj).value.inputs;
    ValidIffAllChecksPass(crypto, obj, reader);
    FixedFirstLoop(crypto, obj, reader, table);
    if AllSpendable(table, inputs) {
      FixedSum(crypto, obj, reader, table);
      FixedSecondLoop(crypto, SignedText(obj), reader, table, inputs);
    }
  }

  lemma FixedNoPanic(crypto: Crypto, obj: Value, table: map<string, string>)
    requires WellFormed(obj) && Spends(obj)
    ensures Judgement(crypto, obj, FixedReader(table)) != Panic
  {
    var reader, inputs := FixedReader(table), TxOf(obj).value.inputs;
    FixedReaderSees(crypto, SignedText(obj), table, inputs);
    NoPanicIfNoCheckPanics(crypto, obj, reader);
  }

  /** Over a fixed store, certified or not, validation never panics, and it accepts exactly the
      acceptable transactions. */
  lemma ValidIffAcceptable(crypto: Crypto, obj: Value, table: map<string, string>)
    requires WellFormed(obj) && (TxOf(obj).Some? ==> Countable(TxOf(obj).value))
    ensures Judgement(crypto, obj, FixedReader(table)) == Valid <==> Acceptable(crypto, table, obj)
    ensures Judgement(crypto, obj, FixedReader(table)) != Panic
  {
    if Spends(obj) {
      FixedReaderSees(crypto, SignedText(obj), table, TxOf(obj).value.inputs);
      FixedVerdict(crypto, obj, FixedReader(table), table);
      FixedNoPanic(crypto, obj, table);
    }
  }
}
