/** When the text stored under an id can change: looking the id up and storing it are two steps. */
module StoreRaces {
  import opened Wrappers
  import opened Json
  import opened JsonText
  import opened JsonRoundTrip
  import opened Canonical
  import opened Storage
  import opened PeerLog
  import opened Messages
  import opened Dispatch
  import opened Network
  import opened NetworkStore

  // ---------- exactly when a stored text stays ----------

  /** No task of node `n` is about to store another text than `bytes` under `id`. */
  predicate Settled(s: Net, n: nat, id: string, bytes: string) {
    forall i | 0 <= i < |s.tasks| && s.tasks[i].node == n && s.tasks[i].state.Putting? && s.tasks[i].state.id == id ::
      s.tasks[i].state.raw == bytes
  }

  predicate Holds(s: Net, n: nat, id: string, bytes: string) {
    n < |s.nodes| && Find(s.nodes[n].store, id) == Some(bytes)
  }

  lemma StepKeepsText(digest: string -> string, s: Net, step: Step, n: nat, id: string, bytes: string)
    requires Enabled(s, step) && Holds(s, n, id, bytes) && Settled(s, n, id, bytes)
    ensures var t := Apply(digest, s, step); Holds(t, n, id, bytes) && Settled(t, n, id, bytes)
  {
  }

  lemma {:induction false} RunKeepsText(digest: string -> string, r: Run, k: nat, n: nat, id: string, bytes: string)
    requires IsRun(digest, r) && k < |r.states|
    requires Holds(r.states[0], n, id, bytes) && Settled(r.states[0], n, id, bytes)
    ensures Holds(r.states[k], n, id, bytes) && Settled(r.states[k], n, id, bytes)
  {
    if k > 0 {
      RunKeepsText(digest, r, k - 1, n, id, bytes);
      assert StepAt(digest, r, k - 1);
      StepKeepsText(digest, r.states[k - 1], r.steps[k - 1], n, id, bytes);
    }
  }

  /** Every run from `s` leaves `bytes` under `id` at node `n`. */
  ghost predicate StaysInEveryRun(digest: string -> string, s: Net, n: nat, id: string, bytes: string) {
    forall r, k: nat | IsRun(digest, r) && r.states[0] == s && k < |r.states| :: Holds(r.states[k], n, id, bytes)
  }

  /** A stored text stays in every run exactly when no task of its node has already found the id missing
      and is about to store another text under it. */
  lemma TextStaysIffSettled(digest: string -> string, s: Net, n: nat, id: string, bytes: string)
    requires Wired(s) && Holds(s, n, id, bytes)
    ensures StaysInEveryRun(digest, s, n, id, bytes) <==> Settled(s, n, id, bytes)
  {
    if Settled(s, n, id, bytes) {
      forall r, k: nat | IsRun(digest, r) && r.states[0] == s && k < |r.states|
        ensures Holds(r.states[k], n, id, bytes)
      {
        RunKeepsText(digest, r, k, n, id, bytes);
      }
    } else {
      var i :| 0 <= i < |s.tasks| && s.tasks[i].node == n && s.tasks[i].state.Putting? && s.tasks[i].state.id == id
               && s.tasks[i].state.raw != bytes;
      Stores(digest, s, i, id, s.tasks[i].state.raw);
      var r := Extended(digest, Run([s], []), Step.Put(i, false));
      assert !Holds(r.states[1], n, id, bytes);
    }
  }

  // ---------- how that comes about ----------

  /** Two connections of a node are about to read two texts of an object it does not have. */
  ghost predicate TwoOffers(digest: string -> string, s: Net, i: nat, j: nat, id: string, first: string,
                            second: string, luck: Luck)
  {
    && Awaits(s, i, Object(id, first), luck) && Awaits(s, j, Object(id, second), luck)
    && i != j && s.tasks[i].node == s.tasks[j].node && !luck.storeFault
    && id !in s.nodes[s.tasks[i].node].store
    && EntryOk(digest, id, first) && EntryOk(digest, id, second)
  }

  lemma BothFindItMissing(digest: string -> string, s: Net, i: nat, j: nat, id: string,
                          first: string, second: string, luck: Luck)
    returns (r: Run)
    requires TwoOffers(digest, s, i, j, id, first, second, luck)
    ensures IsRun(digest, r) && r.states[0] == s && r.steps == [Deliver(i, luck), Deliver(j, luck)]
    ensures var t := Last(r);
            && Wired(t) && t.nodes == s.nodes && |t.tasks| == |s.tasks|
            && t.tasks[i].node == t.tasks[j].node == s.tasks[i].node
            && t.tasks[i].state == Putting(id, first) && t.tasks[j].state == Putting(id, second)
  {
    r := Run([s], []);
    FindsMissing(digest, s, i, id, first, luck);
    r := Extended(digest, r, Deliver(i, luck));
    FindsMissing(digest, Last(r), j, id, second, luck);
    r := Extended(digest, r, Deliver(j, luck));
  }

  /** Both tasks find the id missing before either stores it, so the second text replaces the first:
      from any state with two such offers, whatever else is under way. */
  lemma RaceReplacesText(digest: string -> string, s: Net, i: nat, j: nat, id: string,
                         first: string, second: string, luck: Luck)
    returns (r: Run)
    requires TwoOffers(digest, s, i, j, id, first, second, luck)
    ensures IsRun(digest, r) && r.states[0] == s && |r.states| == 5
    ensures r.steps == [Deliver(i, luck), Deliver(j, luck), Step.Put(i, false), Step.Put(j, false)]
    ensures var n := s.tasks[i].node;
            Holds(r.states[3], n, id, first) && Holds(r.states[4], n, id, second)
  {
    r := BothFindItMissing(digest, s, i, j, id, first, second, luck);
    Stores(digest, Last(r), i, id, first);
    r := Extended(digest, r, Step.Put(i, false));
    var third := Last(r);
    Stores(digest, third, j, id, second);
    r := Extended(digest, r, Step.Put(j, false));
    assert r.states[3] == r.states[..4][3] == third;
  }

  // ---------- two texts of one object ----------

  function EmptyPayload(name: string): Value {
    Obj([Field(name, Obj([]))])
  }

  function Tight(name: string): string {
    Compact(EmptyPayload(name))
  }

  /** The same with a space after the colon. */
  function Loose(name: string): string {
    "{" + (Quote(name) + (": " + (Compact(Obj([])) + "}")))
  }

  lemma {:induction false} PlainIsUnescaped(s: string)
    requires forall i | 0 <= i < |s| :: 'a' <= s[i] <= 'z'
    ensures EscapeAll(s) == s
  {
    if s != "" {
      PlainIsUnescaped(s[1..]);
    }
  }

  lemma QuotedName(name: string)
    requires name == "object"
    ensures Quote(name) == "\"object\""
  {
    PlainIsUnescaped(name);
  }

  /** The two texts, written out. */
  lemma TheTexts(name: string)
    requires name == "object"
    ensures Tight(name) == "{\"object\":{}}" && Loose(name) == "{\"object\": {}}"
  {
    QuotedName(name);
    TightParts(name);
    WrittenOut(Quote(name));
  }

  lemma WrittenOut(quoted: string)
    requires quoted == "\"object\""
    ensures "{" + (quoted + (":" + ("{}" + "}"))) == "{\"object\":{}}"
    ensures "{" + (quoted + (": " + ("{}" + "}"))) == "{\"object\": {}}"
  {
  }

  lemma TightParts(name: string)
    ensures Tight(name) == "{" + (Quote(name) + (":" + ("{}" + "}"))) && Compact(Obj([])) == "{}"
  {
    var inner := Obj([]);
    assert Compact(inner) == "{}";
    var f := Field(name, inner);
    assert FieldsText([f]) == FieldText(f) == Quote(name) + ":" + "{}";
  }

  lemma SpaceIsSkipped(text: string, depth: nat)
    ensures ParseValue(" " + text, depth) == ParseValue(text, depth)
  {
    assert (" " + text)[1..] == text;
    assert SkipWs(" " + text) == SkipWs(text);
  }

  lemma SpacedFieldStep(key: string, v: Value, depth: nat)
    requires WellFormed(v) && Depth(v) < depth
    ensures ParseFields(Quote(key) + (": " + (Compact(v) + "}")), depth) == Some(([Field(key, Sorted(v))], ""))
  {
    var value := Compact(v) + "}";
    var tail := ": " + value;
    QuoteParses(key, tail);
    assert SkipWs(Quote(key) + tail) == Quote(key) + tail;
    assert SkipWs(tail) == tail && tail[1..] == " " + value;
    SpaceIsSkipped(value, depth);
    ValueParses(v, "}", depth);
    assert SkipWs("}") == "}" && "}"[1..] == "";
  }

  lemma LooseParses(name: string, depth: nat)
    requires depth > 2
    ensures ParseValue(Loose(name), depth) == Some((EmptyPayload(name), ""))
  {
    var inner := Obj([]);
    assert SortedFields([]) == [] && FieldsDepth([]) == 0;
    assert Sorted(inner) == inner && Depth(inner) == 1;
    var body := Quote(name) + (": " + (Compact(inner) + "}"));
    ContainerStep('{', body, depth);
    assert SkipWs(body) == body && body[0] == '"';
    SpacedFieldStep(name, inner, depth - 1);
  }

  lemma PayloadIsNormal(name: string)
    ensures var v := EmptyPayload(name); WellFormed(v) && Sorted(v) == v && Depth(v) == 2
  {
    var inner := Obj([]);
    assert SortedFields([]) == [] && FieldsDepth([]) == 0;
    assert Sorted(inner) == inner && Depth(inner) == 1 && WellFormed(inner);
    var fs := [Field(name, inner)];
    assert fs[1..] == [];
    assert SortedFields(fs) == fs && FieldsDepth(fs) == 1;
  }

  lemma TightParses(name: string, depth: nat)
    requires depth > 2
    ensures ParseValue(Tight(name), depth) == Some((EmptyPayload(name), ""))
    ensures CanonicalText(EmptyPayload(name)) == Tight(name)
  {
    PayloadIsNormal(name);
    ValueParses(EmptyPayload(name), "", depth);
    assert Tight(name) + "" == Tight(name);
  }

  lemma PayloadIsObject(name: string)
    requires name == "object"
    ensures EnsureObjectField(EmptyPayload(name)) == Some([])
  {
    var fs := [Field(name, Obj([]))];
    assert Lookup(fs, name) == Some(Obj([]));
  }

  lemma ParsedIsEntry(digest: string -> string, v: Value, text: string)
    requires ParseValue(text, RECURSION_LIMIT) == Some((v, "")) && EnsureObjectField(v).Some?
    ensures EntryOk(digest, digest(CanonicalText(v)), text)
  {
    assert SkipWs("") == "";
    assert FromStr(text) == Some(v);
  }

  lemma ParsedIsRaw(v: Value, text: string)
    requires text != "" && !IsWs(text[0]) && ParseValue(text, |text| + RECURSION_LIMIT) == Some((v, ""))
    ensures IsRaw(text)
  {
    BareIsAll(text);
    assert SkipWs(text) == text;
  }

  lemma BareIsAll(text: string)
    ensures Bare(text, "") == Some(text)
  {
    assert SkipWs("") == "" && text[..|text|] == text;
  }

  lemma ParsedIsBoth(digest: string -> string, v: Value, text: string)
    requires text != "" && text[0] == '{' && EnsureObjectField(v).Some?
    requires ParseValue(text, RECURSION_LIMIT) == Some((v, ""))
    requires ParseValue(text, |text| + RECURSION_LIMIT) == Some((v, ""))
    ensures EntryOk(digest, digest(CanonicalText(v)), text) && IsRaw(text)
  {
    ParsedIsEntry(digest, v, text);
    ParsedIsRaw(v, text);
  }

  /** Two different texts certify the same id, whatever the digest, and both can be what an object
      message carries. */
  lemma TwoTextsOneId(digest: string -> string, name: string)
    requires name == "object"
    ensures var id := digest(Tight(name));
            Tight(name) != Loose(name) && EntryOk(digest, id, Tight(name)) && EntryOk(digest, id, Loose(name))
    ensures IsRaw(Tight(name)) && IsRaw(Loose(name))
  {
    TightParts(name);
    assert |Tight(name)| + 1 == |Loose(name)|;
    PayloadIsObject(name);
    var v := EmptyPayload(name);
    TightParses(name, RECURSION_LIMIT);
    TightParses(name, |Tight(name)| + RECURSION_LIMIT);
    ParsedIsBoth(digest, v, Tight(name));
    LooseParses(name, RECURSION_LIMIT);
    LooseParses(name, |Loose(name)| + RECURSION_LIMIT);
    ParsedIsBoth(digest, v, Loose(name));
  }

  /** One node with two connections, each of them offering one text. */
  function Offers(config: Config, id: string, first: string, second: string): Net {
    Net([Node(config, map[], Log({}, ""))],
        [Task(0, [Object(id, first)], Running), Task(0, [], Running),
         Task(0, [Object(id, second)], Running), Task(0, [], Running)])
  }

  lemma OffersAreTwo(digest: string -> string, config: Config, id: string, first: string, second: string, luck: Luck)
    requires EntryOk(digest, id, first) && EntryOk(digest, id, second) && luck.order == [] && !luck.storeFault
    ensures TwoOffers(digest, Offers(config, id, first, second), 0, 2, id, first, second, luck)
  {
  }

  /** A concrete race: one id stands for the tight text in one state and for the loose one in the next,
      so no claim that stored bytes never change holds. */
  lemma StoredBytesChange(digest: string -> string, config: Config, name: string) returns (r: Run)
    requires name == "object"
    ensures IsRun(digest, r) && |r.states| == 5 && AllCertified(digest, r.states[0]) && AllRaw(r.states[0])
    ensures Holds(r.states[3], 0, digest(Tight(name)), Tight(name))
    ensures Holds(r.states[4], 0, digest(Tight(name)), Loose(name)) && Loose(name) != Tight(name)
  {
    TwoTextsOneId(digest, name);
    r := OfferedTwice(digest, config, digest(Tight(name)), Tight(name), Loose(name));
  }

  lemma OfferedTwice(digest: string -> string, config: Config, id: string, first: string, second: string)
    returns (r: Run)
    requires EntryOk(digest, id, first) && EntryOk(digest, id, second) && IsRaw(first) && IsRaw(second)
    ensures IsRun(digest, r) && |r.states| == 5 && AllCertified(digest, r.states[0]) && AllRaw(r.states[0])
    ensures Holds(r.states[3], 0, id, first) && Holds(r.states[4], 0, id, second)
  {
    var s := Offers(config, id, first, second);
    var luck := Luck([], false, Disk(0, 0));
    OffersAreTwo(digest, config, id, first, second, luck);
    r := RaceReplacesText(digest, s, 0, 2, id, first, second, luck);
  }
}
