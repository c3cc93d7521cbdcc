/** Which error `validate_transaction` returns, and when. */
module Verdicts {
  import opened Json
  import opened Transaction
  import opened Spending

  // ---------- the checks and their places ----------

  /** The checks of a transaction by their place in the code: one for each input, the comparison of the
      sums, and one signature for each input. */
  function CheckAt(crypto: Crypto, obj: Value, reader: Reader, tx: Transaction, k: nat): Outcome
    requires k < 2 * |tx.inputs| + 1
  {
    var n := |tx.inputs|;
    if k < n then InputCheck(reader, tx.inputs, k)
    else if k == n then ConservationCheck(reader, tx)
    else VerifyCheck(crypto, SignedText(obj), reader, tx.inputs, k - n - 1)
  }

  lemma {:induction false} InputChecksAt(reader: Reader, inputs: seq<Input>, i: nat, k: nat)
    requires i <= k < |inputs|
    ensures |InputChecks(reader, inputs, i)| == |inputs| - i
    ensures InputChecks(reader, inputs, i)[k - i] == InputCheck(reader, inputs, k)
    decreases |inputs| - i
  {
    if i < k {
      InputChecksAt(reader, inputs, i + 1, k);
    } else if i + 1 < |inputs| {
      InputChecksAt(reader, inputs, i + 1, i + 1);
    }
  }

  lemma {:induction false} VerifyChecksAt(crypto: Crypto, text: string, reader: Reader, inputs: seq<Input>,
                                          i: nat, k: nat)
    requires i <= k < |inputs|
    ensures |VerifyChecks(crypto, text, reader, inputs, i)| == |inputs| - i
    ensures VerifyChecks(crypto, text, reader, inputs, i)[k - i] == VerifyCheck(crypto, text, reader, inputs, k)
    decreases |inputs| - i
  {
    if i < k {
      VerifyChecksAt(crypto, text, reader, inputs, i + 1, k);
    } else if i + 1 < |inputs| {
      VerifyChecksAt(crypto, text, reader, inputs, i + 1, i + 1);
    }
  }

  predicate AreInputChecks(checks: seq<Outcome>, reader: Reader, inputs: seq<Input>) {
    |checks| == |inputs| && forall k | 0 <= k < |inputs| :: checks[k] == InputCheck(reader, inputs, k)
  }

  predicate AreVerifyChecks(checks: seq<Outcome>, crypto: Crypto, text: string, reader: Reader, inputs: seq<Input>) {
    |checks| == |inputs| && forall k | 0 <= k < |inputs| :: checks[k] == VerifyCheck(crypto, text, reader, inputs, k)
  }

  lemma InputChecksAll(reader: Reader, inputs: seq<Input>)
    ensures AreInputChecks(InputChecks(reader, inputs, 0), reader, inputs)
  {
    if inputs != [] {
      InputChecksAt(reader, inputs, 0, 0);
    }
    forall k | 0 <= k < |inputs| ensures InputChecks(reader, inputs, 0)[k] == InputCheck(reader, inputs, k) {
      InputChecksAt(reader, inputs, 0, k);
    }
  }

  lemma VerifyChecksAll(crypto: Crypto, text: string, reader: Reader, inputs: seq<Input>)
    ensures AreVerifyChecks(VerifyChecks(crypto, text, reader, inputs, 0), crypto, text, reader, inputs)
  {
    if inputs != [] {
      VerifyChecksAt(crypto, text, reader, inputs, 0, 0);
    }
    forall k | 0 <= k < |inputs|
      ensures VerifyChecks(crypto, text, reader, inputs, 0)[k] == VerifyCheck(crypto, text, reader, inputs, k)
    {
      VerifyChecksAt(crypto, text, reader, inputs, 0, k);
    }
  }

  lemma ChecksInPlace(crypto: Crypto, obj: Value, reader: Reader, tx: Transaction)
    ensures |Checks(crypto, obj, reader, tx)| == 2 * |tx.inputs| + 1
    ensures forall k | 0 <= k < 2 * |tx.inputs| + 1 ::
              Checks(crypto, obj, reader, tx)[k] == CheckAt(crypto, obj, reader, tx, k)
  {
    InputChecksAll(reader, tx.inputs);
    VerifyChecksAll(crypto, SignedText(obj), reader, tx.inputs);
  }

  /** Check `k` gives `failure`, and every check before it passes. */
  ghost predicate FailsFirst(crypto: Crypto, obj: Value, reader: Reader, tx: Transaction, k: nat, failure: Outcome) {
    && k < 2 * |tx.inputs| + 1 && CheckAt(crypto, obj, reader, tx, k) == failure
    && forall j | 0 <= j < k :: CheckAt(crypto, obj, reader, tx, j) == Valid
  }

  /** Whatever the reads return, an error or panic is the verdict exactly when some check gives it and
      every check before it, in the order of the code, passes. Only a transaction without a height is
      checked at all: a value that decodes to none, or to an ill-shaped one, is an invalid format, and a
      well-shaped coinbase is accepted. */
  lemma VerdictIsFirstFailure(crypto: Crypto, obj: Value, reader: Reader, failure: Outcome)
    requires failure != Valid
    ensures Spends(obj) ==>
              (Judgement(crypto, obj, reader) == failure <==>
               exists k: nat :: FailsFirst(crypto, obj, reader, TxOf(obj).value, k, failure))
    ensures !Spends(obj) ==>
              Judgement(crypto, obj, reader) ==
              if TxOf(obj).Some? && WellShaped(TxOf(obj).value) then Valid else Invalid(InvalidFormat)
  {
    if Spends(obj) {
      var tx := TxOf(obj).value;
      var checks := Checks(crypto, obj, reader, tx);
      ChecksInPlace(crypto, obj, reader, tx);
      FirstFailureIsFirst(checks, failure);
      if i: nat :| FirstAt(checks, i) && checks[i] == failure {
        assert FailsFirst(crypto, obj, reader, tx, i, failure);
      }
      if k: nat :| FailsFirst(crypto, obj, reader, tx, k, failure) {
        assert FirstAt(checks, k) && checks[k] == failure;
      }
    }
  }

  // ---------- one loop at a time ----------

  ghost predicate InputFails(reader: Reader, inputs: seq<Input>, i: nat, failure: Outcome) {
    && i < |inputs| && InputCheck(reader, inputs, i) == failure
    && forall j | 0 <= j < i :: InputCheck(reader, inputs, j) == Valid
  }

  lemma InputFailure(checks: seq<Outcome>, reader: Reader, inputs: seq<Input>, failure: Outcome)
    requires AreInputChecks(checks, reader, inputs) && failure != Valid
    ensures FirstFailure(checks) == failure <==> exists i: nat :: InputFails(reader, inputs, i, failure)
  {
    FirstFailureIsFirst(checks, failure);
    if i: nat :| FirstAt(checks, i) && checks[i] == failure {
      assert InputFails(reader, inputs, i, failure);
    }
    if i: nat :| InputFails(reader, inputs, i, failure) {
      assert FirstAt(checks, i) && checks[i] == failure;
    }
  }

  ghost predicate SignatureFails(crypto: Crypto, text: string, reader: Reader, inputs: seq<Input>, i: nat,
                                 failure: Outcome)
  {
    && i < |inputs| && VerifyCheck(crypto, text, reader, inputs, i) == failure
    && forall j | 0 <= j < i :: VerifyCheck(crypto, text, reader, inputs, j) == Valid
  }

  lemma SignatureFailure(checks: seq<Outcome>, crypto: Crypto, text: string, reader: Reader, inputs: seq<Input>,
                         failure: Outcome)
    requires AreVerifyChecks(checks, crypto, text, reader, inputs) && failure != Valid
    ensures FirstFailure(checks) == failure <==>
            exists i: nat :: SignatureFails(crypto, text, reader, inputs, i, failure)
  {
    FirstFailureIsFirst(checks, failure);
    if i: nat :| FirstAt(checks, i) && checks[i] == failure {
      assert SignatureFails(crypto, text, reader, inputs, i, failure);
    }
    if i: nat :| SignatureFails(crypto, text, reader, inputs, i, failure) {
      assert FirstAt(checks, i) && checks[i] == failure;
    }
  }

  // ---------- the errors over a fixed store ----------

  /** Nothing is stored under the id, or its transaction has no such output. */
  predicate Unresolved(table: map<string, string>, input: Input) {
    input.outpoint.txid !in table ||
    var parent := StoredTx(table[input.outpoint.txid]);
    parent.Some? && input.outpoint.index >= |parent.value.outputs|
  }

  /** What is stored under the id is no transaction. */
  predicate NoTransaction(table: map<string, string>, input: Input) {
    input.outpoint.txid in table && StoredTx(table[input.outpoint.txid]).None?
  }

  predicate NoKey(crypto: Crypto, table: map<string, string>, input: Input)
    requires SpentOutput(table, input).Some?
  {
    (crypto.keyOf)(SpentOutput(table, input).value.pubkey).None?
  }

  predicate AllAuthorised(crypto: Crypto, text: string, table: map<string, string>, inputs: seq<Input>)
    requires AllSpendable(table, inputs)
  {
    forall i | 0 <= i < |inputs| :: Authorised(crypto, text, SpentOutput(table, inputs[i]).value, inputs[i])
  }

  /** Input `i` is the first that cannot be spent. */
  predicate FirstUnspendable(table: map<string, string>, inputs: seq<Input>, i: nat) {
    i < |inputs| && AllSpendable(table, inputs[..i]) && SpentOutput(table, inputs[i]).None?
  }

  /** All inputs can be spent and cover the outputs. */
  predicate Covered(table: map<string, string>, tx: Transaction) {
    AllSpendable(table, tx.inputs) && CreatedValue(tx.outputs) <= TotalSpent(table, tx.inputs)
  }

  /** Input `i` is the first that is not authorised. */
  predicate FirstUnauthorised(crypto: Crypto, text: string, table: map<string, string>, inputs: seq<Input>, i: nat)
    requires AllSpendable(table, inputs)
  {
    && i < |inputs| && AllAuthorised(crypto, text, table, inputs[..i])
    && !Authorised(crypto, text, SpentOutput(table, inputs[i]).value, inputs[i])
  }

  lemma FixedInputCheck(obj: Value, table: map<string, string>, i: nat)
    requires WellFormed(obj) && Spends(obj) && Countable(TxOf(obj).value) && i < |TxOf(obj).value.inputs|
    ensures var inputs := TxOf(obj).value.inputs;
            InputCheck(FixedReader(table), inputs, i) ==
            if SpentOutput(table, inputs[i]).Some? then Valid
            else if Unresolved(table, inputs[i]) then Invalid(InvalidOutpoint)
            else Invalid(InvalidFormat)
  {
    ExactArithmetic(obj, FixedReader(table));
    var inputs := TxOf(obj).value.inputs;
    var read := ReadAt(FixedReader(table), i, inputs[i].outpoint.txid);
    assert read == if inputs[i].outpoint.txid in table then Found(table[inputs[i].outpoint.txid]) else Missing;
  }

  lemma FixedVerifyCheck(crypto: Crypto, text: string, table: map<string, string>, inputs: seq<Input>, i: nat)
    requires i < |inputs| && SpentOutput(table, inputs[i]).Some?
    ensures VerifyCheck(crypto, text, FixedReader(table), inputs, i) ==
            if Authorised(crypto, text, SpentOutput(table, inputs[i]).value, inputs[i]) then Valid
            else if NoKey(crypto, table, inputs[i]) then Invalid(InvalidFormat)
            else Invalid(InvalidSignature)
  {
    var read := ReadAt(FixedReader(table), SecondRead(inputs, i), inputs[i].outpoint.txid);
    assert read == Found(table[inputs[i].outpoint.txid]);
  }

  /** The first loop over a fixed store. */
  lemma FixedFirstFailure(obj: Value, table: map<string, string>, failure: Outcome)
    requires WellFormed(obj) && Spends(obj) && Countable(TxOf(obj).value) && failure != Valid
    ensures var inputs := TxOf(obj).value.inputs;
            FirstFailure(InputChecks(FixedReader(table), inputs, 0)) == failure <==>
            exists i: nat :: FirstUnspendable(table, inputs, i) &&
              failure == Invalid(if Unresolved(table, inputs[i]) then InvalidOutpoint else InvalidFormat)
  {
    var reader, inputs := FixedReader(table), TxOf(obj).value.inputs;
    InputChecksAll(reader, inputs);
    InputFailure(InputChecks(reader, inputs, 0), reader, inputs, failure);
    forall i | 0 <= i < |inputs|
      ensures InputCheck(reader, inputs, i) == Valid <==> SpentOutput(table, inputs[i]).Some?
    {
      FixedInputCheck(obj, table, i);
    }
    if i: nat :| InputFails(reader, inputs, i, failure) {
      FixedInputCheck(obj, table, i);
      assert FirstUnspendable(table, inputs, i);
    }
    if i: nat :| FirstUnspendable(table, inputs, i) &&
                 failure == Invalid(if Unresolved(table, inputs[i]) then InvalidOutpoint else InvalidFormat) {
      FixedInputCheck(obj, table, i);
      forall j | 0 <= j < i ensures InputCheck(reader, inputs, j) == Valid {
        assert inputs[..i][j] == inputs[j];
      }
      assert InputFails(reader, inputs, i, failure);
    }
  }

  /** The second loop over a fixed store. */
  lemma FixedSecondFailure(crypto: Crypto, text: string, table: map<string, string>, inputs: seq<Input>,
                           failure: Outcome)
    requires AllSpendable(table, inputs) && failure != Valid
    ensures FirstFailure(VerifyChecks(crypto, text, FixedReader(table), inputs, 0)) == failure <==>
            exists i: nat :: FirstUnauthorised(crypto, text, table, inputs, i) &&
              failure == Invalid(if NoKey(crypto, table, inputs[i]) then InvalidFormat else InvalidSignature)
  {
    var reader := FixedReader(table);
    VerifyChecksAll(crypto, text, reader, inputs);
    SignatureFailure(VerifyChecks(crypto, text, reader, inputs, 0), crypto, text, reader, inputs, failure);
    forall i | 0 <= i < |inputs|
      ensures VerifyCheck(crypto, text, reader, inputs, i) == Valid <==>
              Authorised(crypto, text, SpentOutput(table, inputs[i]).value, inputs[i])
    {
      FixedVerifyCheck(crypto, text, table, inputs, i);
    }
    if i: nat :| SignatureFails(crypto, text, reader, inputs, i, failure) {
      FixedVerifyCheck(crypto, text, table, inputs, i);
      assert FirstUnauthorised(crypto, text, table, inputs, i);
    }
    if i: nat :| FirstUnauthorised(crypto, text, table, inputs, i) &&
                 failure == Invalid(if NoKey(crypto, table, inputs[i]) then InvalidFormat else InvalidSignature) {
      FixedVerifyCheck(crypto, text, table, inputs, i);
      forall j | 0 <= j < i ensures VerifyCheck(crypto, text, reader, inputs, j) == Valid {
        assert inputs[..i][j] == inputs[j];
      }
      assert SignatureFails(crypto, text, reader, inputs, i, failure);
    }
  }

  /** What the verdict is over a fixed store, in the terms of the store. */
  ghost predicate Refused(crypto: Crypto, table: map<string, string>, obj: Value, e: TxError)
    requires Spends(obj)
  {
    var tx, text := TxOf(obj).value, SignedText(obj);
    match e
    case UnknownObject => false
    case InvalidOutpoint =>
      exists i: nat :: FirstUnspendable(table, tx.inputs, i) && Unresolved(table, tx.inputs[i])
    case InvalidConservation =>
      AllSpendable(table, tx.inputs) && TotalSpent(table, tx.inputs) < CreatedValue(tx.outputs)
    case InvalidSignature =>
      Covered(table, tx) &&
      exists i: nat :: FirstUnauthorised(crypto, text, table, tx.inputs, i) && !NoKey(crypto, table, tx.inputs[i])
    case InvalidFormat =>
      || (exists i: nat :: FirstUnspendable(table, tx.inputs, i) && NoTransaction(table, tx.inputs[i]))
      || (Covered(table, tx) &&
          exists i: nat :: FirstUnauthorised(crypto, text, table, tx.inputs, i) && NoKey(crypto, table, tx.inputs[i]))
  }

  lemma UnspendableEither(table: map<string, string>, input: Input)
    ensures SpentOutput(table, input).None? <==> Unresolved(table, input) || NoTransaction(table, input)
    ensures !(Unresolved(table, input) && NoTransaction(table, input))
  {
  }

  lemma FirstLoopIff(crypto: Crypto, obj: Value, table: map<string, string>)
    requires WellFormed(obj) && Spends(obj) && Countable(TxOf(obj).value)
    ensures FirstFailure(InputChecks(FixedReader(table), TxOf(obj).value.inputs, 0)) == Valid <==>
            AllSpendable(table, TxOf(obj).value.inputs)
  {
    FixedReaderSees(crypto, SignedText(obj), table, TxOf(obj).value.inputs);
    FixedFirstLoop(crypto, obj, FixedReader(table), table);
    FirstLoopPasses(FixedReader(table), TxOf(obj).value.inputs);
  }

  lemma SpendableHasNoUnspendable(table: map<string, string>, inputs: seq<Input>, i: nat)
    requires AllSpendable(table, inputs)
    ensures !FirstUnspendable(table, inputs, i)
  {
  }

  /** When the first loop already fails, its failure is the verdict. */
  lemma RefusedEarly(crypto: Crypto, obj: Value, table: map<string, string>, e: TxError)
    requires WellFormed(obj) && Spends(obj) && Countable(TxOf(obj).value)
    requires !AllSpendable(table, TxOf(obj).value.inputs)
    ensures Judgement(crypto, obj, FixedReader(table)) == Invalid(e) <==> Refused(crypto, table, obj, e)
  {
    var inputs := TxOf(obj).value.inputs;
    JudgementParts(crypto, obj, FixedReader(table));
    FirstLoopIff(crypto, obj, table);
    FixedFirstFailure(obj, table, Invalid(e));
    forall i: nat | i < |inputs|
      ensures SpentOutput(table, inputs[i]).None? <==>
              Unresolved(table, inputs[i]) || NoTransaction(table, inputs[i])
      ensures !(Unresolved(table, inputs[i]) && NoTransaction(table, inputs[i]))
    {
      UnspendableEither(table, inputs[i]);
    }
  }

  /** Otherwise the comparison of the sums decides, and then the second loop. */
  lemma RefusedLate(crypto: Crypto, obj: Value, table: map<string, string>, e: TxError)
    requires WellFormed(obj) && Spends(obj) && Countable(TxOf(obj).value)
    requires AllSpendable(table, TxOf(obj).value.inputs)
    ensures Judgement(crypto, obj, FixedReader(table)) == Invalid(e) <==> Refused(crypto, table, obj, e)
  {
    var tx := TxOf(obj).value;
    JudgementParts(crypto, obj, FixedReader(table));
    FirstLoopIff(crypto, obj, table);
    FixedReaderSees(crypto, SignedText(obj), table, tx.inputs);
    FixedSum(crypto, obj, FixedReader(table), table);
    FixedSecondFailure(crypto, SignedText(obj), table, tx.inputs, Invalid(e));
    forall i: nat ensures !FirstUnspendable(table, tx.inputs, i) {
      SpendableHasNoUnspendable(table, tx.inputs, i);
    }
  }

  /** Over a fixed store each error is returned exactly in its own case: an outpoint that cannot be
      resolved, or a stored value that is no transaction, at the first input that cannot be spent; inputs
      worth less than the outputs, when all can be spent; a key or a signature that is not valid, at the
      first input that is not authorised, when the sums compare; and never for an unknown object. */
  lemma RefusedIff(crypto: Crypto, obj: Value, table: map<string, string>, e: TxError)
    requires WellFormed(obj) && (TxOf(obj).Some? ==> Countable(TxOf(obj).value))
    ensures Judgement(crypto, obj, FixedReader(table)) == Invalid(e) <==>
            if Spends(obj) then Refused(crypto, table, obj, e)
            else e == InvalidFormat && !(TxOf(obj).Some? && WellShaped(TxOf(obj).value))
  {
    if Spends(obj) {
      if AllSpendable(table, TxOf(obj).value.inputs) {
        RefusedLate(crypto, obj, table, e);
      } else {
        RefusedEarly(crypto, obj, table, e);
      }
    }
  }
}
