/** What is read from a peers file after any number of appends, with lines left unfinished by writes that
    break off (src/state/peers.rs). */
module PeerFiles {
  import opened Wrappers
  import opened Text
  import opened PeerText
  import opened PeerLog

  // ---------- the finished lines, and the rest ----------

  /** Everything up to the last newline. */
  function Closed(file: string): string {
    match SplitLast(file, '\n')
    case None => ""
    case Some((lines, _)) => lines + "\n"
  }

  /** The line that is not finished. */
  function Tail(file: string): string {
    match SplitLast(file, '\n')
    case None => file
    case Some((_, line)) => line
  }

  lemma ClosedAndTail(file: string)
    ensures file == Closed(file) + Tail(file)
    ensures EndsClean(Closed(file)) && '\n' !in Tail(file)
    ensures EndsClean(file) <==> Tail(file) == ""
  {
    match SplitLast(file, '\n')
    case None => assert "" + file == file;
    case Some((lines, line)) => assert file == (lines + "\n") + line;
  }

  /** Finished lines are read on their own; what is written next continues the unfinished one. */
  lemma RecordedAfter(file: string, text: string)
    ensures Recorded(file + text) == Recorded(Closed(file)) + Recorded(Tail(file) + text)
    ensures Recorded(file) == Recorded(Closed(file)) + Recorded(Tail(file))
  {
    ClosedAndTail(file);
    Regroup(Closed(file), Tail(file), text);
    RecordedConcat(Closed(file), Tail(file) + text);
    RecordedConcat(Closed(file), Tail(file));
  }

  lemma LongerHost(tail: string, p: Peer)
    ensures tail + LineOf(p) == LineOf(Peer(tail + p.host, p.port))
  {
    Regroup(tail, p.host, ",");
    Regroup(tail, p.host + ",", Digits(p.port));
    Regroup(tail, p.host + "," + Digits(p.port), "\n");
  }

  /** Appending a peer's line to any file: its host is read behind whatever the last line began with. If
      there is no such line and the host is clean, that adds the peer and no other. */
  lemma AppendedToAny(file: string, p: Peer)
    ensures Recorded(file + LineOf(p)) == Recorded(Closed(file)) + ReadFrom(Tail(file) + p.host, p.port)
    ensures EndsClean(file) && CleanHost(p.host) ==> Recorded(file + LineOf(p)) == Recorded(file) + {p}
  {
    if EndsClean(file) && CleanHost(p.host) {
      RecordedAppend(file, p);
    }
    RecordedAfter(file, LineOf(p));
    LongerHost(Tail(file), p);
    LineReadsAs(Peer(Tail(file) + p.host, p.port));
  }

  // ---------- when a record of the unfinished line survives ----------

  lemma {:induction false} TrimEndBehind(a: string, c: char, b: string)
    requires !IsSpace(c)
    ensures TrimEnd(a + [c] + b) == a + [c] + TrimEnd(b)
    decreases |b|
  {
    var s := a + [c] + b;
    if b == "" {
      assert s[|s| - 1] == c;
    } else {
      var n := |b| - 1;
      assert s[|s| - 1] == b[n] && s[..|s| - 1] == a + [c] + b[..n];
      if IsSpace(b[n]) {
        TrimEndBehind(a, c, b[..n]);
      }
    }
  }

  lemma TrimOfLine(name: string, after: string)
    ensures Trim(name + [','] + after) == TrimStart(name) + [','] + TrimEnd(after)
  {
    TrimStartBefore(name, ',', after);
    TrimEndBehind(TrimStart(name), ',', after);
  }

  lemma CommaAfterTrim(after: string)
    ensures FirstField(TrimEnd(after)) == if ',' in after then FirstField(after) else TrimEnd(after)
  {
    match SplitFirst(after, ',')
    case None =>
      NotSplit(TrimEnd(after), ',');
    case Some((field, more)) =>
      TrimEndBehind(field, ',', more);
      SplitFirstAt(field, ',', TrimEnd(more));
  }

  /** What a line is read as, when it has a comma. */
  lemma LineWithComma(name: string, after: string)
    requires ',' !in name
    ensures var port := ParsePort(if ',' in after then FirstField(after) else TrimEnd(after));
            FromLine(name + [','] + after) == if port.Some? then {Peer(Trim(name), port.value)} else {}
  {
    TrimOfLine(name, after);
    CommaFree(name);
    SplitFirstAt(TrimStart(name), ',', TrimEnd(after));
    CommaAfterTrim(after);
    TrimOfTrimStart(name);
  }

  lemma TrimDropsCr(line: string)
    ensures FromLine(StripCr(line)) == FromLine(line)
  {
    if line != "" && line[|line| - 1] == '\r' {
      var rest := line[..|line| - 1];
      assert line == rest + "\r";
      SpaceDrops(rest, '\r');
    }
  }

  lemma {:induction false} TrimStartEarlier(s: string, c: char)
    requires IsSpace(c)
    ensures TrimStart(s + [c]) == if TrimStart(s) == "" then "" else TrimStart(s) + [c]
  {
    if s == "" {
      assert s + [c] == [c] && [c][1..] == "";
    } else {
      assert (s + [c])[0] == s[0] && (s + [c])[1..] == s[1..] + [c];
      if IsSpace(s[0]) {
        TrimStartEarlier(s[1..], c);
      }
    }
  }

  lemma SpaceDrops(s: string, c: char)
    requires IsSpace(c)
    ensures Trim(s + [c]) == Trim(s)
  {
    TrimStartEarlier(s, c);
    if TrimStart(s) != "" {
      var t := TrimStart(s) + [c];
      assert t[..|t| - 1] == TrimStart(s);
    }
  }

  /** The text now read as the port of the unfinished line, when a host is written behind it: the field
      may have ended already, or end in the host, or at the comma or newline that comes next. */
  function PortText(after: string, host: string): string {
    if ',' in after then FirstField(after)
    else
      match SplitFirst(host, '\n')
      case None => after + FirstField(host)
      case Some((line, _)) => if ',' in line then after + FirstField(line) else TrimEnd(after + line)
  }

  /** The lines of a host after its first. */
  function LaterLines(host: string, port: Port): set<Peer> {
    match SplitFirst(host, '\n')
    case None => {}
    case Some((_, rest)) => ReadFrom(rest, port)
  }

  lemma FieldGoesOn(after: string, host: string)
    ensures ',' in after ==> FirstField(after + host) == FirstField(after)
    ensures ',' !in after ==> FirstField(after + host) == after + FirstField(host)
  {
    match SplitFirst(after, ',')
    case Some((field, more)) =>
      assert after + host == field + [','] + (more + host);
      SplitFirstAt(field, ',', more + host);
    case None =>
      match SplitFirst(host, ',')
      case None =>
        NotSplit(after + host, ',');
      case Some((field, more)) =>
        assert after + host == (after + field) + [','] + more;
        SplitFirstAt(after + field, ',', more);
  }

  /** What is read when a host is written behind an unfinished line that has a comma. */
  lemma ReadBehind(name: string, after: string, host: string, port: Port)
    requires ',' !in name && '\n' !in name && '\n' !in after
    ensures var now := ParsePort(PortText(after, host));
            ReadFrom(name + [','] + after + host, port) ==
            (if now.Some? then {Peer(Trim(name), now.value)} else {}) + LaterLines(host, port)
  {
    var all := name + [','] + after + host;
    match SplitFirst(host, '\n')
    case None =>
      NotSplit(all, '\n');
      assert all == name + [','] + (after + host);
      SplitFirstAt(name, ',', after + host);
      FieldGoesOn(after, host);
    case Some((line, rest)) =>
      var first := name + [','] + (after + line);
      assert all == first + ['\n'] + rest && '\n' !in first;
      SplitFirstAt(first, '\n', rest);
      TrimDropsCr(first);
      LineWithComma(name, after + line);
      FieldGoesOn(after, line);
  }

  /** The comma of a line that is read as a peer. */
  lemma ReadLineHasComma(tail: string, q: Peer)
    requires q in FromLine(tail)
    ensures SplitFirst(tail, ',').Some?
    ensures Trim(SplitFirst(tail, ',').value.0) == q.host
  {
    var trimmed := Trim(tail);
    var (before, _) := SplitFirst(trimmed, ',').value;
    assert trimmed[|before|] == ',';
    TrimChars(tail);
    var (name, after) := SplitFirst(tail, ',').value;
    LineWithComma(name, after);
  }

  /** The record of an unfinished line survives the next append exactly when the text now read as its
      port still spells the same port, or it is recorded in another line as well. */
  lemma UnfinishedSurvivesIff(file: string, p: Peer, q: Peer)
    requires q in FromLine(Tail(file))
    ensures SplitFirst(Tail(file), ',').Some?
    ensures var after := SplitFirst(Tail(file), ',').value.1;
            q in Recorded(file + LineOf(p)) <==>
            || ParsePort(PortText(after, p.host)) == Some(q.port)
            || q in Recorded(Closed(file)) || q in LaterLines(p.host, p.port)
  {
    ClosedAndTail(file);
    ReadLineHasComma(Tail(file), q);
    var (name, after) := SplitFirst(Tail(file), ',').value;
    AppendedToAny(file, p);
    assert Tail(file) == name + [','] + after;
    ReadBehind(name, after, p.host, p.port);
  }

  // ---------- how a clean record is lost ----------

  /** A write that breaks off just before the newline leaves a record that is read. */
  lemma OnlyNewlineMissing(q: Peer)
    requires CleanHost(q.host)
    ensures var line := q.host + "," + Digits(q.port);
            Kept(LineOf(q), Broken(|line|)) == line && Recorded(line) == {q}
  {
    var line := q.host + "," + Digits(q.port);
    assert LineOf(q)[..|line|] == line;
    CutReadsAs(q.host, q.port);
  }

  lemma {:induction false} OnlyDigitsRead(s: string, acc: nat)
    requires ReadDigits(s, acc).1 == ""
    ensures forall c | c in s :: IsDigit(c)
  {
    if s != "" && IsDigit(s[0]) {
      OnlyDigitsRead(s[1..], acc * 10 + DigitValue(s[0]));
      assert forall c | c in s :: c == s[0] || c in s[1..];
    }
  }

  lemma NoPortWithDot(s: string)
    requires '.' in s
    ensures ParsePort(s).None?
  {
    var digits := if s[0] == '+' then s[1..] else s;
    assert '.' in digits;
    if ReadDigits(digits, 0).1 == "" {
      OnlyDigitsRead(digits, 0);
    }
  }

  /** The next append then loses both: the record that was there, and the peer appended, unless the old
      port and the new host together spell a port. */
  lemma BothAreLost(q: Peer, p: Peer)
    requires CleanHost(q.host) && CleanHost(p.host) && ParsePort(Digits(q.port) + p.host).None?
    ensures var file := q.host + "," + Digits(q.port);
            Recorded(file) == {q} && Recorded(file + LineOf(p)) == {}
  {
    var digits := Digits(q.port);
    var file := q.host + "," + digits;
    CutReadsAs(q.host, q.port);
    PortReads(q.port);
    assert '\n' !in digits && ',' !in digits;
    NoNewlineTail(file);
    AppendedToAny(file, p);
    assert file == q.host + [','] + digits;
    ReadBehind(q.host, digits, p.host, p.port);
    assert SplitFirst(p.host, '\n').None? && SplitFirst(p.host, ',').None?;
    assert Lines("") == [] && Recorded("") == {};
  }

  lemma NoNewlineTail(file: string)
    requires '\n' !in file
    ensures Closed(file) == "" && Tail(file) == file
  {
    NotSplitLast(file, '\n');
  }

  /** As with every address: a dotted quad behind a port is no port. */
  lemma AddressesAreLost(q: Peer, p: Peer)
    requires CanonicalHost(q.host) && CanonicalHost(p.host)
    ensures var file := q.host + "," + Digits(q.port);
            Recorded(file) == {q} && Recorded(file + LineOf(p)) == {}
  {
    AddressIsClean(q.host);
    AddressIsClean(p.host);
    NoPortWithDot(Digits(q.port) + p.host);
    BothAreLost(q, p);
  }

  lemma AddressIsClean(host: string)
    requires CanonicalHost(host)
    ensures CleanHost(host) && '.' in host
  {
    var ip := ParseIpv4(host).value;
    Ipv4ParsesExactlyItsText(host, ip);
    DigitsOnly(ip.a);
    DigitsOnly(ip.b);
    DigitsOnly(ip.c);
    DigitsOnly(ip.d);
    var last := Digits(ip.d);
    assert host[|host| - 1] == last[|last| - 1] && last[|last| - 1] in last;
    assert host[0] == Digits(ip.a)[0];
    AddressChars(ip);
  }

  lemma AddressChars(ip: Ipv4)
    ensures forall c | c in ShowIpv4(ip) :: c == '.' || IsDigit(c)
    ensures '.' in ShowIpv4(ip)
  {
    DigitsOnly(ip.a);
    DigitsOnly(ip.b);
    DigitsOnly(ip.c);
    DigitsOnly(ip.d);
    var t2 := Digits(ip.c) + ("." + Digits(ip.d));
    var t1 := Digits(ip.b) + ("." + t2);
    assert forall c | c in t2 :: c == '.' || IsDigit(c);
    assert forall c | c in t1 :: c == '.' || IsDigit(c);
    assert ShowIpv4(ip)[|Digits(ip.a)|] == '.';
  }

  // ---------- broken writes ----------

  lemma CutShort(cut: string, c: char)
    ensures Kept(cut + [c] + "\n", Broken(|cut|)) == cut
  {
    assert (cut + [c] + "\n")[..|cut|] == cut;
  }

  /** A write that breaks off can leave another peer, even of a clean host: one whose port has lost its
      last digit. */
  lemma BrokenPortPlants(p: Peer)
    requires CleanHost(p.host) && p.port >= 10
    ensures var less: Port := p.port / 10;
            var cut := Kept(LineOf(p), Broken(|p.host + "," + Digits(less)|));
            Recorded(cut) == {Peer(p.host, less)} && less != p.port
  {
    var less: Port := p.port / 10;
    var cut := p.host + "," + Digits(less);
    LosesLastDigit(p);
    CutShort(cut, DigitChar(p.port % 10));
    CutReadsAs(p.host, less);
  }

  lemma LosesLastDigit(p: Peer)
    requires p.port >= 10
    ensures LineOf(p) == (p.host + "," + Digits(p.port / 10)) + [DigitChar(p.port % 10)] + "\n"
  {
    assert Digits(p.port) == Digits(p.port / 10) + [DigitChar(p.port % 10)];
    Regroup(p.host + ",", Digits(p.port / 10), [DigitChar(p.port % 10)]);
  }

  /** A line without its newline is read as well. */
  lemma CutReadsAs(host: string, port: Port)
    requires CleanHost(host)
    ensures Recorded(host + "," + Digits(port)) == {Peer(host, port)}
  {
    PortReads(port);
    var text := host + "," + Digits(port);
    InEither(host + ",", Digits(port));
    RecordedOne(text);
    LastLineIs(host, port);
    TrimIsTrimmed(host);
  }

  lemma InEither(a: string, b: string)
    ensures '\n' in a + b ==> '\n' in a || '\n' in b
  {
  }

  // ---------- any number of appends ----------

  datatype Attempt = Attempt(peer: Peer, write: Write)

  function AppendAll(log: Log, attempts: seq<Attempt>): Log
    decreases |attempts|
  {
    if attempts == [] then log
    else AppendAll(Appended(log, attempts[0].peer, attempts[0].write), attempts[1..])
  }

  /** Everything the attempts write to the file. */
  function WrittenText(log: Log, attempts: seq<Attempt>): string
    decreases |attempts|
  {
    if attempts == [] then ""
    else
      var a := attempts[0];
      (if a.peer in log.known then "" else Kept(LineOf(a.peer), a.write))
      + WrittenText(Appended(log, a.peer, a.write), attempts[1..])
  }

  lemma {:induction false} MapGrows(log: Log, attempts: seq<Attempt>)
    ensures AppendAll(log, attempts).known == log.known + set a | a in attempts :: a.peer
    decreases |attempts|
  {
    if attempts != [] {
      MapGrows(Appended(log, attempts[0].peer, attempts[0].write), attempts[1..]);
      assert forall a :: a in attempts <==> a == attempts[0] || a in attempts[1..];
    }
  }

  lemma {:induction false} FileGrows(log: Log, attempts: seq<Attempt>)
    ensures AppendAll(log, attempts).file == log.file + WrittenText(log, attempts)
    decreases |attempts|
  {
    if attempts == [] {
      assert log.file + "" == log.file;
    } else {
      var a := attempts[0];
      var next := Appended(log, a.peer, a.write);
      var text := if a.peer in log.known then "" else Kept(LineOf(a.peer), a.write);
      FileGrows(next, attempts[1..]);
      assert next.file == log.file + text;
      Regroup(log.file, text, WrittenText(next, attempts[1..]));
    }
  }

  /** After any number of appends of any hosts to any file, whatever becomes of each write: the finished
      lines are read as before, and what was written is read behind the unfinished one. */
  lemma FileReadsAsWritten(log: Log, attempts: seq<Attempt>)
    ensures Recorded(AppendAll(log, attempts).file) ==
            Recorded(Closed(log.file)) + Recorded(Tail(log.file) + WrittenText(log, attempts))
  {
    FileGrows(log, attempts);
    RecordedAfter(log.file, WrittenText(log, attempts));
  }

  lemma NoTail(file: string, text: string)
    requires EndsClean(file)
    ensures Closed(file) == file && Tail(file) + text == text
  {
    ClosedAndTail(file);
    assert Closed(file) + "" == Closed(file) && "" + text == text;
  }

  /** No record is lost exactly when those of the unfinished line are still read, as they are when there
      is none; and the file replays to peers of the map only, exactly when everyone read from finished
      lines and from what was written is in the map. */
  lemma FailuresLoseNothing(log: Log, attempts: seq<Attempt>)
    ensures var after, text := AppendAll(log, attempts), Tail(log.file) + WrittenText(log, attempts);
            && (Recorded(log.file) <= Recorded(after.file) <==>
                Recorded(Tail(log.file)) <= Recorded(Closed(log.file)) + Recorded(text))
            && (EndsClean(log.file) ==> Recorded(log.file) <= Recorded(after.file))
            && (Recorded(after.file) <= after.known <==>
                Recorded(Closed(log.file)) <= after.known && Recorded(text) <= after.known)
  {
    FileReadsAsWritten(log, attempts);
    RecordedAfter(log.file, "");
    if EndsClean(log.file) {
      NoTail(log.file, "");
      ClosedAndTail(log.file);
      assert Recorded("") == {};
    }
  }

  // ---------- writes that are whole ----------

  /** Each write is whole, or writes nothing: the file does not open. */
  predicate WholeOrNothing(write: Write) {
    write.Whole? || write.kept == 0
  }

  /** What the lines written by the attempts are read as. */
  function ReadFromWritten(log: Log, attempts: seq<Attempt>): set<Peer>
    decreases |attempts|
  {
    if attempts == [] then {}
    else
      var a := attempts[0];
      (if a.peer !in log.known && a.write.Whole? then ReadFrom(a.peer.host, a.peer.port) else {})
      + ReadFromWritten(Appended(log, a.peer, a.write), attempts[1..])
  }

  /** When no write breaks off inside a line, what is written is read as what each host spells. */
  lemma {:induction false} WholeLinesReadAs(log: Log, attempts: seq<Attempt>)
    requires forall a | a in attempts :: WholeOrNothing(a.write)
    ensures Recorded(WrittenText(log, attempts)) == ReadFromWritten(log, attempts)
    decreases |attempts|
  {
    if attempts == [] {
      assert Recorded("") == {};
    } else {
      var a := attempts[0];
      assert a in attempts;
      var next := Appended(log, a.peer, a.write);
      var rest := WrittenText(next, attempts[1..]);
      WholeLinesReadAs(next, attempts[1..]);
      if a.peer !in log.known && a.write.Whole? {
        LineReadsAs(a.peer);
        RecordedConcat(LineOf(a.peer), rest);
      } else {
        assert "" + rest == rest;
      }
    }
  }

  /** The file replays to the map, and the next line will be a new one. */
  predicate InSync(log: Log) {
    EndsClean(log.file) && Recorded(log.file) == log.known
  }

  lemma {:induction false} CleanAppendsStaySynced(log: Log, attempts: seq<Attempt>)
    requires InSync(log) && forall a | a in attempts :: a.write.Whole? && CleanHost(a.peer.host)
    ensures InSync(AppendAll(log, attempts))
    decreases |attempts|
  {
    if attempts != [] {
      var a := attempts[0];
      assert a in attempts;
      if a.peer !in log.known {
        RecordedAppend(log.file, a.peer);
      }
      CleanAppendsStaySynced(Appended(log, a.peer, a.write), attempts[1..]);
    }
  }

  /** After any number of successful appends the file replays to the map exactly when every appended
      host is clean. */
  lemma SyncedIffClean(log: Log, attempts: seq<Attempt>)
    requires InSync(log) && forall a | a in attempts :: a.write.Whole?
    ensures InSync(AppendAll(log, attempts)) <==> forall a | a in attempts :: CleanHost(a.peer.host)
  {
    if forall a | a in attempts :: CleanHost(a.peer.host) {
      CleanAppendsStaySynced(log, attempts);
    } else {
      var a :| a in attempts && !CleanHost(a.peer.host);
      MapGrows(log, attempts);
      assert a.peer in AppendAll(log, attempts).known;
      if InSync(AppendAll(log, attempts)) {
        RecordedAreClean(AppendAll(log, attempts).file, a.peer);
      }
    }
  }
}
