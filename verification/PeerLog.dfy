/** The set of known peers and the append-only file it is rebuilt from (src/state/peers.rs). */
module PeerLog {
  import opened Wrappers
  import opened Text
  import opened PeerText

  datatype PeersError = IoError

  function StripCr(s: string): string {
    if s != "" && s[|s| - 1] == '\r' then s[..|s| - 1] else s
  }

  /** `BufRead::lines`. */
  function Lines(s: string): seq<string>
    decreases |s|
  {
    if s == "" then []
    else
      match SplitFirst(s, '\n')
      case None => [s]
      case Some((line, rest)) => [StripCr(line)] + Lines(rest)
  }

  /** What comes before the first comma, or everything. */
  function FirstField(s: string): string {
    match SplitFirst(s, ',')
    case None => s
    case Some((field, _)) => field
  }

  /** The first two comma-separated parts of a line, if they make a peer. */
  function ParseLine(line: string): Option<Peer> {
    var (host, after) :- SplitFirst(Trim(line), ',');
    var port :- ParsePort(FirstField(after));
    Some(Peer(Trim(host), port))
  }

  /** Every peer that some line of the file describes. */
  function Recorded(file: string): set<Peer> {
    set i | 0 <= i < |Lines(file)| && ParseLine(Lines(file)[i]).Some? :: ParseLine(Lines(file)[i]).value
  }

  function LineOf(p: Peer): string {
    p.host + "," + Digits(p.port) + "\n"
  }

  datatype Log = Log(known: set<Peer>, file: string)

  /** What `append_peer` does to the map and the file. */
  function Appended(log: Log, p: Peer, write: Write): Log {
    if p in log.known then log
    else Log(log.known + {p}, log.file + Kept(LineOf(p), write))
  }

  /** The map a node keeps in memory, and its file. */
  class PeerStore {
    var known: set<Peer>
    var file: string

    constructor (saved: string)
      ensures file == saved && known == Recorded(saved)
    {
      file := saved;
      new;
      known := LoadFromDisk(saved);
    }

    method AppendPeer(p: Peer, write: Write) returns (r: Result<(), PeersError>)
      modifies this
      ensures Log(known, file) == Appended(old(Log(known, file)), p, write)
      ensures r.Err? <==> p !in old(known) && write.Broken?
    {
      if p in known {
        return Ok(());
      }
      known := known + {p};
      var key := p.host + "," + Digits(p.port);
      file := file + Kept(key + "\n", write);
      r := if write.Broken? then Err(IoError) else Ok(());
    }
  }

  function FromLine(line: string): set<Peer> {
    var p := ParseLine(line);
    if p.Some? then {p.value} else {}
  }

  /** Every peer that one of the first `n` lines describes. */
  function ReadUpTo(lines: seq<string>, n: nat): set<Peer>
    requires n <= |lines|
  {
    set i | 0 <= i < n && ParseLine(lines[i]).Some? :: ParseLine(lines[i]).value
  }

  lemma ReadOneMore(lines: seq<string>, n: nat)
    requires n < |lines|
    ensures ReadUpTo(lines, n + 1) == ReadUpTo(lines, n) + FromLine(lines[n])
  {
  }

  method LoadFromDisk(file: string) returns (loaded: set<Peer>)
    ensures loaded == Recorded(file)
  {
    loaded := {};
    var lines := Lines(file);
    for i := 0 to |lines|
      invariant loaded == ReadUpTo(lines, i)
    {
      ReadOneMore(lines, i);
      var peer := ParseLine(lines[i]);
      if peer.Some? {
        loaded := loaded + {peer.value};
      }
    }
  }

  // ---------- lines ----------

  /** Empty, or closed by a newline: the next record starts on its own line. */
  predicate EndsClean(file: string) {
    file == "" || file[|file| - 1] == '\n'
  }

  lemma {:induction false} LinesConcat(file: string, text: string)
    requires EndsClean(file)
    ensures Lines(file + text) == Lines(file) + Lines(text)
    decreases |file|
  {
    if file == "" {
      assert file + text == text;
    } else {
      assert '\n' in file;
      var (line, rest) := SplitFirst(file, '\n').value;
      assert EndsClean(rest) by {
        if rest != "" { assert rest[|rest| - 1] == file[|file| - 1]; }
      }
      assert file + text == line + ['\n'] + (rest + text);
      SplitFirstAt(line, '\n', rest + text);
      LinesConcat(rest, text);
    }
  }

  lemma {:induction false} LinesHaveNoNewline(s: string)
    ensures forall i | 0 <= i < |Lines(s)| :: '\n' !in Lines(s)[i]
    decreases |s|
  {
    if s != "" && SplitFirst(s, '\n').Some? {
      var (line, rest) := SplitFirst(s, '\n').value;
      assert forall c | c in StripCr(line) :: c in line;
      LinesHaveNoNewline(rest);
    }
  }

  predicate SomeLine(lines: seq<string>, p: Peer) {
    exists i | 0 <= i < |lines| :: ParseLine(lines[i]) == Some(p)
  }

  lemma SomeLineOfBoth(a: seq<string>, b: seq<string>, p: Peer)
    ensures SomeLine(a + b, p) <==> SomeLine(a, p) || SomeLine(b, p)
  {
    if i :| 0 <= i < |a| && ParseLine(a[i]) == Some(p) {
      assert (a + b)[i] == a[i];
    }
    if i :| 0 <= i < |b| && ParseLine(b[i]) == Some(p) {
      assert (a + b)[|a| + i] == b[i];
    }
  }

  lemma RecordedIff(file: string, p: Peer)
    ensures p in Recorded(file) <==> SomeLine(Lines(file), p)
  {
  }

  /** What is written after a newline is read on its own: nothing before it is lost or changed. */
  lemma RecordedConcat(file: string, text: string)
    requires EndsClean(file)
    ensures Recorded(file + text) == Recorded(file) + Recorded(text)
  {
    LinesConcat(file, text);
    forall p ensures p in Recorded(file + text) <==> p in Recorded(file) || p in Recorded(text) {
      SomeLineOfBoth(Lines(file), Lines(text), p);
      RecordedIff(file + text, p);
      RecordedIff(file, p);
      RecordedIff(text, p);
    }
  }

  lemma OneLineRecorded(s: string, line: string)
    requires Lines(s) == [line]
    ensures Recorded(s) == FromLine(line)
  {
    forall p ensures p in Recorded(s) <==> p in FromLine(line) {
      assert Lines(s)[0] == line;
    }
  }

  lemma RecordedOne(text: string)
    requires '\n' !in text && text != ""
    ensures Recorded(text) == FromLine(text)
    ensures Recorded(text + "\n") == FromLine(StripCr(text))
  {
    OneLineRecorded(text, text);
    SplitFirstAt(text, '\n', "");
    assert text + "\n" == text + ['\n'] + "";
    OneLineRecorded(text + "\n", StripCr(text));
  }

  // ---------- which peers survive the file ----------

  /** The host can be told from the rest of its line. */
  predicate CleanHost(host: string) {
    Trimmed(host) && ',' !in host && '\n' !in host
  }

  lemma {:induction false} TrimStartChars(s: string)
    ensures forall c | c in TrimStart(s) :: c in s
  {
    if s != "" && IsSpace(s[0]) {
      TrimStartChars(s[1..]);
    }
  }

  lemma TrimChars(s: string)
    ensures forall c | c in Trim(s) :: c in s
  {
    TrimStartChars(s);
    var t := TrimStart(s);
    assert forall c | c in TrimEnd(t) :: c in t;
  }

  /** Whatever is in the file, only peers with clean hosts are read from it. */
  lemma RecordedAreClean(file: string, p: Peer)
    requires p in Recorded(file)
    ensures CleanHost(p.host)
  {
    var lines := Lines(file);
    var i :| 0 <= i < |lines| && ParseLine(lines[i]) == Some(p);
    LinesHaveNoNewline(file);
    TrimChars(lines[i]);
    var host := SplitFirst(Trim(lines[i]), ',').value.0;
    TrimChars(host);
    TrimIsTrimmed(host);
    assert forall c | c in host :: c in Trim(lines[i]);
  }

  // ---------- what a line is read as ----------

  /** What is read from a host without newlines, a comma and a port. A comma in the host takes the place
      of the one written after it, and what follows it that of the port. */
  function LastLineRead(host: string, port: Port): set<Peer> {
    match SplitFirst(host, ',')
    case None => {Peer(Trim(host), port)}
    case Some((name, after)) =>
      var read := ParsePort(FirstField(after));
      if read.Some? then {Peer(Trim(name), read.value)} else {}
  }

  /** What is read from the line written for a peer: each newline in the host starts another line. */
  function ReadFrom(host: string, port: Port): set<Peer>
    decreases |host|
  {
    match SplitFirst(host, '\n')
    case None => LastLineRead(host, port)
    case Some((line, rest)) => FromLine(StripCr(line)) + ReadFrom(rest, port)
  }

  lemma {:induction false} TrimStartBefore(a: string, c: char, b: string)
    requires !IsSpace(c)
    ensures TrimStart(a + [c] + b) == TrimStart(a) + [c] + b
  {
    if a == "" {
      assert a + [c] + b == [c] + b;
    } else {
      assert (a + [c] + b)[0] == a[0] && (a + [c] + b)[1..] == a[1..] + [c] + b;
      if IsSpace(a[0]) {
        TrimStartBefore(a[1..], c, b);
      }
    }
  }

  lemma TrimOfTrimStart(s: string)
    ensures Trim(TrimStart(s)) == Trim(s)
  {
    assert TrimStart(TrimStart(s)) == TrimStart(s);
  }

  lemma {:induction false} CommaFree(s: string)
    requires ',' !in s
    ensures ',' !in TrimStart(s)
  {
    if s != "" && IsSpace(s[0]) {
      CommaFree(s[1..]);
    }
  }

  /** Splitting off the first field of a line that ends in a digit. */
  lemma LineFields(name: string, after: string)
    requires ',' !in name && after != "" && IsDigit(after[|after| - 1])
    ensures SplitFirst(Trim(name + [','] + after), ',') == Some((TrimStart(name), after))
  {
    var line := name + [','] + after;
    TrimStartBefore(name, ',', after);
    var t := TrimStart(name) + [','] + after;
    assert t[|t| - 1] == after[|after| - 1];
    assert TrimEnd(t) == t;
    CommaFree(name);
    SplitFirstAt(TrimStart(name), ',', after);
  }

  lemma PlainHostRead(host: string, port: Port)
    requires ',' !in host
    ensures FromLine(host + [','] + Digits(port)) == {Peer(Trim(host), port)}
  {
    PortReads(port);
    assert Digits(port)[|Digits(port)| - 1] in Digits(port);
    LineFields(host, Digits(port));
    TrimOfTrimStart(host);
    assert ',' !in Digits(port);
  }

  lemma CommaHostRead(name: string, after: string, port: Port)
    requires ',' !in name
    ensures var field := FirstField(after);
            FromLine(name + [','] + (after + "," + Digits(port))) ==
            if ParsePort(field).Some? then {Peer(Trim(name), ParsePort(field).value)} else {}
  {
    var digits := Digits(port);
    var rest := after + "," + digits;
    PortReads(port);
    assert rest[|rest| - 1] == digits[|digits| - 1] && digits[|digits| - 1] in digits;
    LineFields(name, rest);
    TrimOfTrimStart(name);
    FieldBeforeDigits(after, digits);
  }

  lemma LastLineIs(host: string, port: Port)
    ensures FromLine(host + "," + Digits(port)) == LastLineRead(host, port)
  {
    match SplitFirst(host, ',')
    case None =>
      PlainHostRead(host, port);
    case Some((name, after)) =>
      assert host + "," + Digits(port) == name + [','] + (after + "," + Digits(port));
      CommaHostRead(name, after, port);
  }

  lemma FieldBeforeDigits(after: string, digits: string)
    ensures SplitFirst(after + "," + digits, ',').Some?
    ensures SplitFirst(after + "," + digits, ',').value.0 == FirstField(after)
  {
    match SplitFirst(after, ',')
    case None =>
      assert after + "," + digits == after + [','] + digits;
      SplitFirstAt(after, ',', digits);
    case Some((f, more)) =>
      assert after + "," + digits == f + [','] + (more + "," + digits);
      SplitFirstAt(f, ',', more + "," + digits);
  }

  /** A peer's line is read as exactly this, whatever the host. */
  lemma {:induction false} LineReadsAs(p: Peer)
    ensures Recorded(LineOf(p)) == ReadFrom(p.host, p.port) && EndsClean(LineOf(p))
    decreases |p.host|
  {
    PortReads(p.port);
    var digits := Digits(p.port);
    match SplitFirst(p.host, '\n')
    case None =>
      var text := p.host + "," + digits;
      assert '\n' !in digits;
      assert text[|text| - 1] == digits[|digits| - 1] && digits[|digits| - 1] in digits;
      assert StripCr(text) == text;
      RecordedOne(text);
      LastLineIs(p.host, p.port);
    case Some((line, rest)) =>
      var last := Peer(rest, p.port);
      assert LineOf(p) == (line + "\n") + LineOf(last);
      RecordedConcat(line + "\n", LineOf(last));
      FirstRecorded(line);
      LineReadsAs(last);
  }

  lemma FirstRecorded(line: string)
    requires '\n' !in line
    ensures Recorded(line + "\n") == FromLine(StripCr(line))
  {
    if line == "" {
      assert Lines("\n") == [""] by {
        assert "" + ['\n'] + "" == "\n";
        SplitFirstAt("", '\n', "");
      }
      assert line + "\n" == "\n";
      assert Trim("") == "" && ParseLine("") == None;
    } else {
      RecordedOne(line);
    }
  }

  /** Appending a peer's line adds to what is read from the file exactly what that line is read as. */
  lemma AppendedReadsAs(file: string, p: Peer)
    requires EndsClean(file)
    ensures Recorded(file + LineOf(p)) == Recorded(file) + ReadFrom(p.host, p.port)
    ensures EndsClean(file + LineOf(p))
  {
    RecordedConcat(file, LineOf(p));
    LineReadsAs(p);
  }

  lemma CleanReadsItself(p: Peer)
    requires CleanHost(p.host)
    ensures ReadFrom(p.host, p.port) == {p}
  {
    TrimIsTrimmed(p.host);
  }

  lemma RecordedAppend(file: string, p: Peer)
    requires EndsClean(file) && CleanHost(p.host)
    ensures Recorded(file + LineOf(p)) == Recorded(file) + {p}
    ensures EndsClean(file + LineOf(p))
  {
    AppendedReadsAs(file, p);
    CleanReadsItself(p);
  }

  /** A recorded peer is read back exactly when its host is clean. */
  lemma ReadBackIffClean(p: Peer)
    ensures p in ReadFrom(p.host, p.port) <==> CleanHost(p.host)
  {
    if CleanHost(p.host) {
      CleanReadsItself(p);
    }
    if p in ReadFrom(p.host, p.port) {
      LineReadsAs(p);
      RecordedAreClean(LineOf(p), p);
    }
  }

  // ---------- planted peers ----------

  /** The line of `p` is read as another peer. */
  predicate Plants(p: Peer, q: Peer) {
    q != p && q in ReadFrom(p.host, p.port)
  }

  /** No line of the host is read as a peer. */
  predicate SpellsNothing(host: string)
    decreases |host|
  {
    match SplitFirst(host, '\n')
    case Some((line, rest)) => ParseLine(StripCr(line)).None? && SpellsNothing(rest)
    case None =>
      match SplitFirst(host, ',')
      case None => false
      case Some((_, after)) => ParsePort(FirstField(after)).None?
  }

  lemma {:induction false} SpellsNothingIff(host: string, port: Port)
    ensures ReadFrom(host, port) == {} <==> SpellsNothing(host)
    decreases |host|
  {
    match SplitFirst(host, '\n')
    case Some((_, rest)) => SpellsNothingIff(rest, port);
    case None =>
      if SplitFirst(host, ',').None? {
        assert Peer(Trim(host), port) in ReadFrom(host, port);
      }
  }

  /** Which hosts plant nothing: a clean one, and one none of whose lines is read as a peer. */
  predicate Harmless(host: string) {
    CleanHost(host) || SpellsNothing(host)
  }

  /** A host, of any number of lines, makes its line read as no other peer exactly when it is harmless. */
  lemma PlantsNothingIffHarmless(p: Peer)
    ensures (forall q :: !Plants(p, q)) <==> Harmless(p.host)
  {
    SpellsNothingIff(p.host, p.port);
    ReadBackIffClean(p);
    if CleanHost(p.host) {
      CleanReadsItself(p);
    } else if ReadFrom(p.host, p.port) != {} {
      var q :| q in ReadFrom(p.host, p.port);
      assert Plants(p, q);
    }
  }

  /** Any peer with a clean host can be planted by one that carries its line as host. */
  lemma AnyCleanPeerCanBePlanted(q: Peer, port: Port)
    requires CleanHost(q.host)
    ensures ReadFrom(q.host + "," + Digits(q.port), port) == {q}
    ensures Plants(Peer(q.host + "," + Digits(q.port), port), q)
  {
    var digits := Digits(q.port);
    var host := q.host + "," + digits;
    PortReads(q.port);
    assert host == q.host + [','] + digits;
    SplitFirstAt(q.host, ',', digits);
    assert '\n' !in digits && ',' !in digits && '\n' !in host && ',' in host;
    TrimIsTrimmed(q.host);
  }
}
