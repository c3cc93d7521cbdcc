/** An output spent twice in a transaction counts twice: when an accepted transaction creates more than
    the outputs it spends are worth. */
module DoubleSpend {
  import opened Wrappers
  import opened Json
  import opened JsonText
  import opened JsonOrder
  import opened Canonical
  import opened Storage
  import opened Transaction
  import opened TransactionText
  import opened Spending

  /** An earlier input spends the same output. */
  predicate SpentBefore(inputs: seq<Input>, i: nat)
    requires i < |inputs|
  {
    exists j | 0 <= j < i :: inputs[j].outpoint == inputs[i].outpoint
  }

  function Worth(table: map<string, string>, input: Input): nat {
    var o := SpentOutput(table, input);
    if o.Some? then o.value.value else 0
  }

  /** What the outputs spent are worth, each counted once. */
  function DistinctSpent(table: map<string, string>, inputs: seq<Input>): nat {
    if inputs == [] then 0
    else
      var n := |inputs| - 1;
      DistinctSpent(table, inputs[..n]) + if SpentBefore(inputs, n) then 0 else Worth(table, inputs[n])
  }

  /** Input `i` spends again what an earlier one spends, and it is worth something. */
  predicate SpendsAgain(table: map<string, string>, inputs: seq<Input>, i: nat) {
    i < |inputs| && SpentBefore(inputs, i) && Worth(table, inputs[i]) > 0
  }

  ghost predicate SpendsTwice(table: map<string, string>, inputs: seq<Input>) {
    exists i: nat :: SpendsAgain(table, inputs, i)
  }

  lemma AgainInPrefix(table: map<string, string>, inputs: seq<Input>, n: nat, i: nat)
    requires i < n <= |inputs|
    ensures SpendsAgain(table, inputs[..n], i) <==> SpendsAgain(table, inputs, i)
  {
    assert forall j | 0 <= j <= i :: inputs[..n][j] == inputs[j];
  }

  /** The sum the code compares is never less than what the spent outputs are worth, and more exactly
      when an output that is worth something is spent twice. */
  lemma {:induction false} SumExceedsIffSpentTwice(table: map<string, string>, inputs: seq<Input>)
    ensures DistinctSpent(table, inputs) <= TotalSpent(table, inputs)
    ensures DistinctSpent(table, inputs) < TotalSpent(table, inputs) <==> SpendsTwice(table, inputs)
    decreases |inputs|
  {
    if inputs != [] {
      var n := |inputs| - 1;
      SumExceedsIffSpentTwice(table, inputs[..n]);
      if i: nat :| SpendsAgain(table, inputs[..n], i) {
        AgainInPrefix(table, inputs, n, i);
      }
      if i: nat :| SpendsAgain(table, inputs, i) && i < n {
        AgainInPrefix(table, inputs, n, i);
      }
      if SpentBefore(inputs, n) && Worth(table, inputs[n]) > 0 {
        assert SpendsAgain(table, inputs, n);
      }
      if i: nat :| SpendsAgain(table, inputs, i) && i == n {
        assert SpentBefore(inputs, n);
      }
    }
  }

  /** Transactions that spend nothing twice create no more than they spend. */
  lemma ConservedUnlessSpentTwice(crypto: Crypto, obj: Value, table: map<string, string>)
    requires Spends(obj)
    ensures var tx := TxOf(obj).value;
            Acceptable(crypto, table, obj) && !SpendsTwice(table, tx.inputs) ==>
            CreatedValue(tx.outputs) <= DistinctSpent(table, tx.inputs)
  {
    SumExceedsIffSpentTwice(table, TxOf(obj).value.inputs);
  }

  // ---------- a transaction that does ----------

  /** A coinbase with a single output, as it is stored. */
  function MintText(pubkey: string, value: nat): string {
    CanonicalText(TxValue(Transaction("transaction", Some(0), [], [Output(pubkey, value)])))
  }

  function Minted(id: string, pubkey: string, value: nat): map<string, string> {
    map[id := MintText(pubkey, value)]
  }

  /** Two equal inputs, and an output of twice what they spend. */
  function Doubling(id: string, sig: string, pubkey: string, value: nat): Transaction {
    var input := Input(Outpoint(id, 0), sig);
    Transaction("transaction", None, [input, input], [Output(pubkey, value + value)])
  }

  lemma MintedOutput(id: string, sig: string, pubkey: string, value: nat)
    requires value <= MAX_U64
    ensures SpentOutput(Minted(id, pubkey, value), Input(Outpoint(id, 0), sig)) == Some(Output(pubkey, value))
  {
    StoredTextDecodes(Transaction("transaction", Some(0), [], [Output(pubkey, value)]));
  }

  lemma TwoInputs(table: map<string, string>, input: Input)
    ensures TotalSpent(table, [input, input]) == 2 * Worth(table, input)
    ensures DistinctSpent(table, [input, input]) == Worth(table, input)
  {
    var both := [input, input];
    assert both[..1] == [input] && [input][..0] == [];
    assert TotalSpent(table, [input]) == Worth(table, input);
    assert !SpentBefore([input], 0) && DistinctSpent(table, [input]) == Worth(table, input);
    assert SpentBefore(both, 1) by { assert both[0].outpoint == both[1].outpoint; }
  }

  /** For every owner who signs it, a transaction that spends one output twice is accepted, and creates
      twice what it spends. */
  lemma DoubleSpendIsAccepted(crypto: Crypto, id: string, sig: string, pubkey: string, value: nat)
    requires 0 < value && value + value <= MAX_U64
    requires var tx := Doubling(id, sig, pubkey, value);
             Authorised(crypto, SignedText(TxValue(tx)), Output(pubkey, value), tx.inputs[0])
    ensures var tx, table := Doubling(id, sig, pubkey, value), Minted(id, pubkey, value);
            && TxOf(TxValue(tx)) == Some(tx)
            && Judgement(crypto, TxValue(tx), FixedReader(table)) == Valid
            && CreatedValue(tx.outputs) == 2 * DistinctSpent(table, tx.inputs) > DistinctSpent(table, tx.inputs)
  {
    var tx, table := Doubling(id, sig, pubkey, value), Minted(id, pubkey, value);
    var input := Input(Outpoint(id, 0), sig);
    MintedOutput(id, sig, pubkey, value);
    TwoInputs(table, input);
    ValueDecodes(tx);
    OneOutput(Output(pubkey, value + value));
    assert Acceptable(crypto, table, TxValue(tx));
    ValidIffAcceptable(crypto, TxValue(tx), table);
  }

  lemma OneOutput(o: Output)
    ensures CreatedValue([o]) == o.value
  {
    assert [o][1..] == [];
    assert CreatedValue([]) == 0;
  }

  /** An object stored as its canonical text certifies the digest of that text. */
  lemma CanonicalTextCertifies(digest: string -> string, v: Value)
    requires WellFormed(v) && FromStr(CanonicalText(v)).Some?
    requires EnsureObjectField(FromStr(CanonicalText(v)).value).Some?
    ensures EntryOk(digest, digest(CanonicalText(v)), CanonicalText(v))
  {
    CanonicalReadBack(v);
    RecanonicalisingIsIdentity(CanonicalText(v));
    NormalFixpoint(Sorted(v));
  }

  /** Whatever the digest, there is a store the node can have, a cryptography in which someone signs, and a
      transaction spending one output twice that is accepted and creates more than what it spends. */
  lemma DoubleSpendExists(digest: string -> string, sig: string, pubkey: string) returns (crypto: Crypto)
    ensures crypto.digest == digest
    ensures var id := digest(MintText(pubkey, 1));
            var tx, table := Doubling(id, sig, pubkey, 1), Minted(id, pubkey, 1);
            && Certified(digest, table) && Judgement(crypto, TxValue(tx), FixedReader(table)) == Valid
            && DistinctSpent(table, tx.inputs) < CreatedValue(tx.outputs)
  {
    crypto := Crypto(digest, s => Some(s), s => Some(s), (k, t, s) => true);
    var mint := Transaction("transaction", Some(0), [], [Output(pubkey, 1)]);
    ValueDecodes(mint);
    StoredTextDecodes(mint);
    CanonicalTextCertifies(digest, TxValue(mint));
    DoubleSpendIsAccepted(crypto, digest(MintText(pubkey, 1)), sig, pubkey, 1);
  }
}
