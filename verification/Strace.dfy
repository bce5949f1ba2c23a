/** What the strace reader records of matched system calls, and how it lists it. */
module Strace {
  import opened Options
  import opened Ordering
  import opened Decimal
  import opened StringOrder
  import NetworkRequest

  /** A matched system call, with the directory already joined to its path; `storable` says whether the buffer
      can be written to a temporary file, and `Other` is anything that is not recorded, such as a call whose
      arguments do not match. */
  datatype Syscall =
    | Write(path: string, buffer: string, bytesWritten: int, storable: bool)
    | Creat(path: string)
    | Open(path: string, flags: string)
    | Stat(path: string)
    | Unlink(path: string)
    | Connect(family: string, address: string, port: Option<nat>)
    | Execve(command: seq<string>, env: seq<string>)
    | Other

  datatype Access = Access(path: string, read: bool, write: bool, del: bool)

  datatype WriteInfo = WriteInfo(bufferId: string, bytesWritten: int)

  datatype FileInfo = FileInfo(path: string, read: bool, write: bool, del: bool, writes: seq<WriteInfo>)

  datatype SocketInfo = SocketInfo(address: string, port: nat)

  datatype CommandInfo = CommandInfo(command: seq<string>, env: seq<string>)

  predicate OpensForReading(flags: string) {
    NetworkRequest.Contains(flags, "O_RDWR") || NetworkRequest.Contains(flags, "O_RDONLY")
  }

  predicate OpensForWriting(flags: string) {
    NetworkRequest.Contains(flags, "O_RDWR") || NetworkRequest.Contains(flags, "O_CREAT")
    || NetworkRequest.Contains(flags, "O_WRONLY")
  }

  function AccessOf(e: Syscall): Option<Access> {
    match e
    case Write(path, _, _, _) => Some(Access(path, false, true, false))
    case Creat(path) => Some(Access(path, false, true, false))
    case Open(path, flags) => Some(Access(path, OpensForReading(flags), OpensForWriting(flags), false))
    case Stat(path) => Some(Access(path, true, false, false))
    case Unlink(path) => Some(Access(path, false, false, true))
    case _ => None
  }

  function SocketOf(e: Syscall): Option<SocketInfo> {
    if e.Connect? && e.family in ["AF_INET", "AF_INET6"] && e.port.Some?
    then Some(SocketInfo(e.address, e.port.value)) else None
  }

  function CommandOf(e: Syscall): Option<CommandInfo> {
    if e.Execve? then Some(CommandInfo(e.command, e.env)) else None
  }

  // ---------------------------------------------------------------- socket keys

  /** The number with at least five digits. */
  function Pad5(n: nat): (s: string) {
    if |Digits(n)| < 5 then Zeros(5 - |Digits(n)|) + Digits(n) else Digits(n)
  }

  function Zeros(k: nat): string {
    if k == 0 then "" else "0" + Zeros(k - 1)
  }

  function SocketKey(s: SocketInfo): string {
    s.address + "-" + Pad5(s.port)
  }

  lemma {:induction false} ZerosAreDigits(k: nat)
    ensures |Zeros(k)| == k && AllDigits(Zeros(k))
  {
    if k > 0 { ZerosAreDigits(k - 1); }
  }

  lemma {:induction false} LeadingZero(s: string)
    ensures ValueOf("0" + s) == ValueOf(s)
    decreases |s|
  {
    if s == [] {
      assert "0" + s == [] + ['0'];
      ValueOfLast([], '0');
    } else {
      var (t, c) := (s[..|s| - 1], s[|s| - 1]);
      assert s == t + [c] && "0" + s == ("0" + t) + [c];
      ValueOfLast(t, c);
      ValueOfLast("0" + t, c);
      LeadingZero(t);
    }
  }

  lemma {:induction false} LeadingZeros(k: nat, s: string)
    ensures ValueOf(Zeros(k) + s) == ValueOf(s)
  {
    if k == 0 {
      assert Zeros(k) + s == s;
    } else {
      assert Zeros(k) + s == "0" + (Zeros(k - 1) + s);
      LeadingZero(Zeros(k - 1) + s);
      LeadingZeros(k - 1, s);
    }
  }

  lemma PaddedDigits(n: nat)
    ensures AllDigits(Pad5(n)) && ValueOf(Pad5(n)) == n && |Pad5(n)| == if |Digits(n)| < 5 then 5 else |Digits(n)|
  {
    if |Digits(n)| < 5 {
      ZerosAreDigits(5 - |Digits(n)|);
      LeadingZeros(5 - |Digits(n)|, Digits(n));
    }
  }

  lemma SplitAtLastDash(a: string, s: string, b: string, t: string)
    requires '-' !in s && '-' !in t && a + "-" + s == b + "-" + t
    ensures a == b && s == t
  {
    var (x, y) := (a + "-" + s, b + "-" + t);
    assert x[|a|] == '-' && forall k :: |a| < k < |x| ==> x[k] == s[k - |a| - 1] && x[k] != '-';
    assert y[|b|] == '-' && forall k :: |b| < k < |y| ==> y[k] == t[k - |b| - 1] && y[k] != '-';
    assert |a| == |b|;
    assert a == x[..|a|] && b == y[..|b|];
    assert s == x[|a| + 1..] && t == y[|b| + 1..];
  }

  /** Different sockets have different keys, whatever dashes and digits their addresses contain. */
  lemma SocketKeyIsInjective(a: SocketInfo, b: SocketInfo)
    ensures SocketKey(a) == SocketKey(b) <==> a == b
  {
    PaddedDigits(a.port);
    PaddedDigits(b.port);
    if SocketKey(a) == SocketKey(b) {
      SplitAtLastDash(a.address, Pad5(a.port), b.address, Pad5(b.port));
    }
  }

  function Pow10(k: nat): nat {
    if k == 0 then 1 else 10 * Pow10(k - 1)
  }

  lemma {:induction false} FewDigits(n: nat, k: nat)
    requires k > 0 && n < Pow10(k)
    ensures |Digits(n)| <= k
  {
    if n >= 10 {
      FewDigits(n / 10, k - 1);
    }
  }

  /** Keys of one address are ordered as their ports, as long as the ports have five digits. */
  lemma KeysFollowPorts(address: string, p: nat, q: nat)
    requires p < q < 100000
    ensures StringLess(SocketKey(SocketInfo(address, p)), SocketKey(SocketInfo(address, q)))
  {
    assert Pow10(5) == 100000;
    FewDigits(p, 5);
    FewDigits(q, 5);
    PaddedDigits(p);
    PaddedDigits(q);
    DigitsOrder(Pad5(p), Pad5(q));
    CommonPrefix(address + "-", Pad5(p), Pad5(q));
  }

  lemma DigitsOfMore(n: nat, c: nat)
    requires n > 0 && c < 10
    ensures Digits(10 * n + c) == Digits(n) + [Digit(c)]
  {
    assert (10 * n + c) / 10 == n && (10 * n + c) % 10 == c;
  }

  lemma SixthDigit()
    ensures Digits(99999)[0] == '9' && |Digits(99999)| == 5 && Digits(100000)[0] == '1' && |Digits(100000)| == 6
  {
    assert Digits(9) == "9" && Digits(1) == "1";
    DigitsOfMore(9, 9);
    DigitsOfMore(99, 9);
    DigitsOfMore(999, 9);
    DigitsOfMore(9999, 9);
    DigitsOfMore(1, 0);
    DigitsOfMore(10, 0);
    DigitsOfMore(100, 0);
    DigitsOfMore(1000, 0);
    DigitsOfMore(10000, 0);
  }

  ghost predicate OrderedBelow(limit: nat) {
    forall address, p: nat, q: nat :: p < q < limit ==>
      StringLess(SocketKey(SocketInfo(address, p)), SocketKey(SocketInfo(address, q)))
  }

  /** Keys of one address follow the ports below a limit exactly when the limit is at most 100000. */
  lemma KeysFollowPortsIff(limit: nat)
    ensures OrderedBelow(limit) <==> limit <= 100000
  {
    if limit <= 100000 {
      forall address, p: nat, q: nat | p < q < limit
        ensures StringLess(SocketKey(SocketInfo(address, p)), SocketKey(SocketInfo(address, q)))
      {
        KeysFollowPorts(address, p, q);
      }
    } else {
      SixthDigit();
      var (a, b) := (SocketInfo("", 99999), SocketInfo("", 100000));
      assert !StringLess(SocketKey(a), SocketKey(b)) by {
        CommonPrefix("" + "-", Pad5(99999), Pad5(100000));
      }
    }
  }

  // ---------------------------------------------------------------- command keys

  /** Texts with a space between them, as `%s` prints a list between brackets. */
  function Spaced(words: seq<string>): string {
    if words == [] then "" else if |words| == 1 then words[0] else words[0] + " " + Spaced(words[1..])
  }

  function CommandKey(c: CommandInfo): string {
    "[" + Spaced(c.command) + "]-[" + Spaced(c.env) + "]"
  }

  /** Two different commands can have one key: printing does not show where an argument ends. */
  lemma CommandKeysClash()
    ensures CommandKey(CommandInfo(["a b"], [])) == CommandKey(CommandInfo(["a", "b"], []))
  {
    assert ["a", "b"][1..] == ["b"];
    assert Spaced(["a", "b"]) == "a" + " " + "b" == "a b";
  }

  ghost predicate PlainWords(words: seq<string>) {
    forall w :: w in words ==> w != "" && ' ' !in w
  }

  /** No empty text, no spaces, and no closing bracket in the command. */
  ghost predicate PlainCommand(c: CommandInfo) {
    PlainWords(c.command) && PlainWords(c.env) && ']' !in Spaced(c.command)
  }

  lemma SplitAtFirst(a: string, c: char, s: string, b: string, t: string)
    requires c !in a && c !in b && a + [c] + s == b + [c] + t
    ensures a == b && s == t
  {
    var (x, y) := (a + [c] + s, b + [c] + t);
    assert x[|a|] == c && forall k :: 0 <= k < |a| ==> x[k] == a[k] && x[k] != c;
    assert y[|b|] == c && forall k :: 0 <= k < |b| ==> y[k] == b[k] && y[k] != c;
    assert |a| == |b|;
    assert a == x[..|a|] && b == y[..|b|] && s == x[|a| + 1..] && t == y[|b| + 1..];
  }

  lemma FirstWordOf(words: seq<string>)
    requires PlainWords(words) && words != []
    ensures Spaced(words) != ""
    ensures |words| == 1 ==> ' ' !in Spaced(words)
    ensures |words| > 1 ==> Spaced(words) == words[0] + [' '] + Spaced(words[1..]) && ' ' in Spaced(words)
  {
    assert words[0] in words;
    if |words| > 1 {
      assert (words[0] + [' '] + Spaced(words[1..]))[|words[0]|] == ' ';
    }
  }

  lemma {:induction false} SpacedIsInjective(a: seq<string>, b: seq<string>)
    requires PlainWords(a) && PlainWords(b) && Spaced(a) == Spaced(b)
    ensures a == b
    decreases |a|
  {
    if a == [] || b == [] {
      if a != [] { FirstWordOf(a); }
      if b != [] { FirstWordOf(b); }
    } else {
      FirstWordOf(a);
      FirstWordOf(b);
      assert a[0] in a && b[0] in b;
      if |a| > 1 {
        SplitAtFirst(a[0], ' ', Spaced(a[1..]), b[0], Spaced(b[1..]));
        assert forall w :: (w in a[1..] ==> w in a) && (w in b[1..] ==> w in b);
        SpacedIsInjective(a[1..], b[1..]);
        assert a == [a[0]] + a[1..] && b == [b[0]] + b[1..];
      }
    }
  }

  lemma BracketsSplit(v: string, s: string, w: string, t: string)
    requires ']' !in v && ']' !in w && "[" + v + "]-[" + s + "]" == "[" + w + "]-[" + t + "]"
    ensures v == w && s == t
  {
    assert "[" + v + "]-[" + s + "]" == ("[" + v) + [']'] + ("-[" + s + "]");
    assert "[" + w + "]-[" + t + "]" == ("[" + w) + [']'] + ("-[" + t + "]");
    SplitAtFirst("[" + v, ']', "-[" + s + "]", "[" + w, "-[" + t + "]");
    assert v == ("[" + v)[1..] && w == ("[" + w)[1..];
    assert s == ("-[" + s + "]")[2..|s| + 2] && t == ("-[" + t + "]")[2..|t| + 2];
  }

  /** Plain commands with one key are the same. */
  lemma CommandKeyIsInjective(a: CommandInfo, b: CommandInfo)
    requires PlainCommand(a) && PlainCommand(b)
    ensures CommandKey(a) == CommandKey(b) <==> a == b
  {
    if CommandKey(a) == CommandKey(b) {
      BracketsSplit(Spaced(a.command), Spaced(a.env), Spaced(b.command), Spaced(b.env));
      SpacedIsInjective(a.command, b.command);
      SpacedIsInjective(a.env, b.env);
    }
  }

  // ---------------------------------------------------------------- what is recorded

  /** The accesses that a run of calls makes. */
  ghost function Accesses(events: seq<Syscall>): set<Access> {
    set e | e in events && AccessOf(e).Some? :: AccessOf(e).value
  }

  /** The sockets that a run of calls binds or connects to. */
  ghost function Connected(events: seq<Syscall>): set<SocketInfo> {
    set e | e in events && SocketOf(e).Some? :: SocketOf(e).value
  }

  /** The commands that a run of calls executes. */
  ghost function Executed(events: seq<Syscall>): set<CommandInfo> {
    set e | e in events && CommandOf(e).Some? :: CommandOf(e).value
  }

  ghost function PathsOf(accesses: set<Access>): set<string> {
    set a | a in accesses :: a.path
  }

  /** The flags of a file are those of any access to it. */
  ghost predicate FlagsRecorded(f: FileInfo, accesses: set<Access>) {
    && (f.read <==> exists a :: a in accesses && a.path == f.path && a.read)
    && (f.write <==> exists a :: a in accesses && a.path == f.path && a.write)
    && (f.del <==> exists a :: a in accesses && a.path == f.path && a.del)
  }

  ghost predicate FilesRecorded(files: map<string, FileInfo>, accesses: set<Access>) {
    && (forall p :: p in files <==> p in PathsOf(accesses))
    && (forall p :: p in files ==> files[p].path == p && FlagsRecorded(files[p], accesses))
  }

  ghost predicate SocketsRecorded(sockets: map<string, SocketInfo>, connected: set<SocketInfo>) {
    && (forall k :: k in sockets ==> k == SocketKey(sockets[k]) && sockets[k] in connected)
    && (forall s :: s in connected ==> SocketKey(s) in sockets)
  }

  /** Each key that was executed once, with some command that has it. */
  ghost predicate CommandsRecorded(commands: map<string, CommandInfo>, executed: set<CommandInfo>) {
    && (forall k :: k in commands ==> k == CommandKey(commands[k]) && commands[k] in executed)
    && (forall c :: c in executed ==> CommandKey(c) in commands)
  }

  function WithCommand(commands: map<string, CommandInfo>, c: CommandInfo): map<string, CommandInfo> {
    if CommandKey(c) in commands then commands else commands[CommandKey(c) := c]
  }

  lemma OneMoreCommand(commands: map<string, CommandInfo>, events: seq<Syscall>, e: Syscall)
    requires CommandsRecorded(commands, Executed(events))
    ensures CommandsRecorded(CommandsAfter(commands, e), Executed(events + [e]))
  {
    assert forall x :: x in events + [e] <==> x in events || x == e;
    if e.Execve? {
      assert CommandOf(e).value in Executed(events + [e]);
      assert Executed(events + [e]) == Executed(events) + {CommandOf(e).value};
    } else {
      assert Executed(events + [e]) == Executed(events);
    }
  }

  function CommandsAfter(commands: map<string, CommandInfo>, e: Syscall): map<string, CommandInfo> {
    if e.Execve? then WithCommand(commands, CommandInfo(e.command, e.env)) else commands
  }

  lemma OneMoreCall(events: seq<Syscall>, e: Syscall)
    ensures Accesses(events + [e]) == Accesses(events) + (if AccessOf(e).Some? then {AccessOf(e).value} else {})
    ensures Connected(events + [e]) == Connected(events) + (if SocketOf(e).Some? then {SocketOf(e).value} else {})
  {
    assert forall x :: x in events + [e] <==> x in events || x == e;
    if AccessOf(e).Some? {
      assert AccessOf(e).value in Accesses(events + [e]);
    }
    if SocketOf(e).Some? {
      assert SocketOf(e).value in Connected(events + [e]);
    }
  }

  function WithAccess(files: map<string, FileInfo>, a: Access): map<string, FileInfo> {
    var was := if a.path in files then files[a.path] else FileInfo(a.path, false, false, false, []);
    files[a.path := was.(read := was.read || a.read, write := was.write || a.write, del := was.del || a.del)]
  }

  lemma OneMoreFlags(files: map<string, FileInfo>, accesses: set<Access>, a: Access, p: string)
    requires FilesRecorded(files, accesses) && p in WithAccess(files, a)
    ensures FlagsRecorded(WithAccess(files, a)[p], accesses + {a})
  {
    var f := WithAccess(files, a)[p];
    assert a in accesses + {a};
    if p !in files {
      assert forall x :: x in accesses ==> x.path in PathsOf(accesses);
    }
  }

  lemma OneMoreAccess(files: map<string, FileInfo>, accesses: set<Access>, a: Access)
    requires FilesRecorded(files, accesses)
    ensures FilesRecorded(WithAccess(files, a), accesses + {a})
  {
    assert PathsOf(accesses + {a}) == PathsOf(accesses) + {a.path};
    forall p | p in WithAccess(files, a)
      ensures WithAccess(files, a)[p].path == p && FlagsRecorded(WithAccess(files, a)[p], accesses + {a})
    {
      OneMoreFlags(files, accesses, a, p);
    }
  }

  function WithSocket(sockets: map<string, SocketInfo>, s: SocketInfo): map<string, SocketInfo> {
    if SocketKey(s) in sockets then sockets else sockets[SocketKey(s) := s]
  }

  lemma OneMoreSocket(sockets: map<string, SocketInfo>, connected: set<SocketInfo>, s: SocketInfo)
    requires SocketsRecorded(sockets, connected)
    ensures SocketsRecorded(WithSocket(sockets, s), connected + {s})
  {}

  // ---------------------------------------------------------------- the result

  /** The buffers written to a path, in order, when file contents are kept. */
  function WritesTo(hash: string -> string, events: seq<Syscall>, path: string): seq<WriteInfo> {
    if events == [] then [] else
      var e := events[|events| - 1];
      WritesTo(hash, events[..|events| - 1], path)
      + (if e.Write? && e.path == path then [WriteInfo(hash(e.buffer), e.bytesWritten)] else [])
  }

  ghost predicate WritesRecorded(keep: bool, hash: string -> string, files: map<string, FileInfo>,
      events: seq<Syscall>) {
    forall p :: p in files ==> files[p].writes == if keep then WritesTo(hash, events, p) else []
  }

  /** The buffers that were written anywhere. */
  ghost function Buffers(keep: bool, hash: string -> string, events: seq<Syscall>): set<string> {
    set e | keep && e in events && e.Write? :: hash(e.buffer)
  }

  lemma OneMoreBuffer(keep: bool, hash: string -> string, events: seq<Syscall>, e: Syscall)
    ensures Buffers(keep, hash, events + [e])
      == Buffers(keep, hash, events) + (if keep && e.Write? then {hash(e.buffer)} else {})
  {
    assert forall x :: x in events + [e] <==> x in events || x == e;
    if keep && e.Write? {
      assert e in events + [e];
    }
  }

  lemma {:induction false} NoWritesTo(hash: string -> string, events: seq<Syscall>, path: string)
    requires path !in PathsOf(Accesses(events))
    ensures WritesTo(hash, events, path) == []
    decreases |events|
  {
    if events != [] {
      var (before, e) := (events[..|events| - 1], events[|events| - 1]);
      assert events == before + [e];
      OneMoreCall(before, e);
      assert e.Write? ==> AccessOf(e).value in Accesses(events);
      NoWritesTo(hash, events[..|events| - 1], path);
    }
  }

  lemma WritesToOneMore(hash: string -> string, events: seq<Syscall>, e: Syscall, path: string)
    ensures WritesTo(hash, events + [e], path)
      == WritesTo(hash, events, path)
        + (if e.Write? && e.path == path then [WriteInfo(hash(e.buffer), e.bytesWritten)] else [])
  {
    assert (events + [e])[..|events|] == events;
  }

  /** The call writes a buffer that was not written before and cannot be stored. */
  ghost predicate CannotStore(keep: bool, hash: string -> string, events: seq<Syscall>, e: Syscall) {
    keep && e.Write? && hash(e.buffer) !in Buffers(keep, hash, events) && !e.storable
  }

  ghost predicate SomeCannotBeStored(keep: bool, hash: string -> string, events: seq<Syscall>, calls: seq<Syscall>) {
    exists k :: 0 <= k < |calls| && CannotStore(keep, hash, events + calls[..k], calls[k])
  }

  class Result {
    const keepContents: bool
    const hash: string -> string
    var files: map<string, FileInfo>
    var sockets: map<string, SocketInfo>
    var commands: map<string, CommandInfo>
    var bufferIds: set<string>
    ghost var events: seq<Syscall>

    ghost predicate Valid()
      reads this
    {
      && FilesRecorded(files, Accesses(events)) && SocketsRecorded(sockets, Connected(events))
      && WritesRecorded(keepContents, hash, files, events)
      && bufferIds == Buffers(keepContents, hash, events)
      && CommandsRecorded(commands, Executed(events))
    }

    constructor (keepContents: bool, hash: string -> string)
      ensures Valid() && events == [] && this.keepContents == keepContents && this.hash == hash
    {
      this.keepContents, this.hash := keepContents, hash;
      files, sockets, commands, bufferIds, events := map[], map[], map[], {}, [];
    }

    method RecordFileAccess(file: string, read: bool, write: bool, del: bool)
      modifies this`files
      ensures files == WithAccess(old(files), Access(file, read, write, del))
    {
      if file !in files {
        files := files[file := FileInfo(file, false, false, false, [])];
      }
      var info := files[file];
      info := info.(read := info.read || read);
      info := info.(write := info.write || write);
      info := info.(del := info.del || del);
      files := files[file := info];
    }

    /** Fails when a buffer that was not seen before cannot be stored. */
    method RecordFileWrite(file: string, buffer: string, bytesWritten: int, storable: bool) returns (ok: bool)
      modifies this`files, this`bufferIds
      ensures files == WithWrite(keepContents, hash, old(files), file, buffer, bytesWritten)
      ensures ok <==> keepContents && hash(buffer) !in old(bufferIds) ==> storable
      ensures bufferIds == old(bufferIds) + (if keepContents && ok then {hash(buffer)} else {})
    {
      RecordFileAccess(file, false, true, false);
      if !keepContents {
        return true;
      }
      var id := hash(buffer);
      var info := files[file];
      files := files[file := info.(writes := info.writes + [WriteInfo(id, bytesWritten)])];
      if id !in bufferIds {
        if !storable {
          return false;
        }
        bufferIds := bufferIds + {id};
      }
      return true;
    }

    method RecordSocket(address: string, port: nat)
      modifies this`sockets
      ensures sockets == WithSocket(old(sockets), SocketInfo(address, port))
    {
      var s := SocketInfo(address, port);
      var key := SocketKey(s);
      if key !in sockets {
        sockets := sockets[key := s];
      }
    }

    method RecordCommand(command: seq<string>, env: seq<string>)
      modifies this`commands
      ensures commands == WithCommand(old(commands), CommandInfo(command, env))
    {
      var c := CommandInfo(command, env);
      var key := CommandKey(c);
      if key !in commands {
        commands := commands[key := c];
      }
    }

    method Process(e: Syscall) returns (ok: bool)
      requires Valid()
      modifies this
      ensures ok <==> !CannotStore(keepContents, hash, old(events), e)
      ensures ok ==> Valid() && events == old(events) + [e]
    {
      OneMoreCallRecorded(keepContents, hash, files, sockets, events, e);
      OneMoreBuffer(keepContents, hash, events, e);
      OneMoreCommand(commands, events, e);
      ok := Record(e);
      events := events + [e];
    }

    method Record(e: Syscall) returns (ok: bool)
      modifies this`files, this`sockets, this`commands, this`bufferIds
      ensures ok <==> (keepContents && e.Write? && hash(e.buffer) !in old(bufferIds) ==> e.storable)
      ensures commands == CommandsAfter(old(commands), e)
      ensures files == FilesAfter(keepContents, hash, old(files), e)
      ensures sockets == SocketsAfter(old(sockets), e)
      ensures ok ==> bufferIds == old(bufferIds) + (if keepContents && e.Write? then {hash(e.buffer)} else {})
    {
      ok := true;
      match e {
        case Write(path, buffer, bytesWritten, storable) =>
          ok := RecordFileWrite(path, buffer, bytesWritten, storable);
        case Creat(path) =>
          RecordFileAccess(path, false, true, false);
        case Open(path, flags) =>
          RecordFileAccess(path, OpensForReading(flags), OpensForWriting(flags), false);
        case Stat(path) =>
          RecordFileAccess(path, true, false, false);
        case Unlink(path) =>
          RecordFileAccess(path, false, false, true);
        case Connect(family, address, port) =>
          if (family == "AF_INET" || family == "AF_INET6") && port.Some? {
            RecordSocket(address, port.value);
          }
        case Execve(command, env) =>
          RecordCommand(command, env);
        case Other =>
      }
    }

    /** Reads all calls, or gives up at the first buffer that cannot be stored. */
    method Parse(calls: seq<Syscall>) returns (ok: bool)
      requires Valid()
      modifies this
      ensures ok <==> !SomeCannotBeStored(keepContents, hash, old(events), calls)
      ensures ok ==> Valid() && events == old(events) + calls
    {
      assert calls[..0] == [] && events + [] == events;
      for i := 0 to |calls|
        invariant Valid() && events == old(events) + calls[..i]
        invariant forall k :: 0 <= k < i ==> !CannotStore(keepContents, hash, old(events) + calls[..k], calls[k])
      {
        ok := Process(calls[i]);
        if !ok {
          return;
        }
        assert calls[..i + 1] == calls[..i] + [calls[i]];
      }
      assert calls[..|calls|] == calls;
      return true;
    }

    /** Every touched path once, in ascending order, with the flags of any call that touched it. */
    method Files() returns (list: seq<FileInfo>)
      requires Valid()
      ensures IsFileListing(list, Accesses(events))
    {
      var paths;
      paths, list := ListSorted(files);
      FilesAreListed(files, paths, list, Accesses(events));
    }

    /** One command for each key that was executed, in the order of the keys. */
    method Commands() returns (list: seq<CommandInfo>)
      requires Valid()
      ensures IsCommandListing(list, Executed(events))
    {
      var keys;
      keys, list := ListSorted(commands);
      CommandsAreListed(commands, keys, list, Executed(events));
    }

    /** Every socket bound or connected to once, in the order of the keys. */
    method Sockets() returns (list: seq<SocketInfo>)
      requires Valid()
      ensures IsSocketListing(list, Connected(events))
    {
      var keys;
      keys, list := ListSorted(sockets);
      SocketsAreListed(sockets, keys, list, Connected(events));
    }
  }

  function WithWrite(keep: bool, hash: string -> string, files: map<string, FileInfo>, file: string, buffer: string,
      n: int)
    : map<string, FileInfo>
  {
    var files := WithAccess(files, Access(file, false, true, false));
    if keep then files[file := files[file].(writes := files[file].writes + [WriteInfo(hash(buffer), n)])] else files
  }

  /** What processing a call does to the files. */
  function FilesAfter(keep: bool, hash: string -> string, files: map<string, FileInfo>, e: Syscall)
    : map<string, FileInfo> {
    if e.Write? then WithWrite(keep, hash, files, e.path, e.buffer, e.bytesWritten)
    else if AccessOf(e).Some? then WithAccess(files, AccessOf(e).value)
    else files
  }

  function SocketsAfter(sockets: map<string, SocketInfo>, e: Syscall): map<string, SocketInfo> {
    if SocketOf(e).Some? then WithSocket(sockets, SocketOf(e).value) else sockets
  }

  /** Contents do not matter for what is recorded of accesses. */
  lemma ContentsAside(files: map<string, FileInfo>, accesses: set<Access>, p: string, writes: seq<WriteInfo>)
    requires FilesRecorded(files, accesses) && p in files
    ensures FilesRecorded(files[p := files[p].(writes := writes)], accesses)
  {
    var files' := files[p := files[p].(writes := writes)];
    forall q | q in files' ensures files'[q].path == q && FlagsRecorded(files'[q], accesses) {
      assert FlagsRecorded(files[q], accesses);
    }
  }

  lemma FilesOfOneMore(keep: bool, hash: string -> string, files: map<string, FileInfo>, accesses: set<Access>,
      e: Syscall)
    requires FilesRecorded(files, accesses)
    ensures FilesRecorded(FilesAfter(keep, hash, files, e),
      accesses + (if AccessOf(e).Some? then {AccessOf(e).value} else {}))
  {
    if AccessOf(e).Some? {
      var a := AccessOf(e).value;
      OneMoreAccess(files, accesses, a);
      var files' := WithAccess(files, a);
      if keep && e.Write? {
        ContentsAside(files', accesses + {a}, a.path,
          files'[a.path].writes + [WriteInfo(hash(e.buffer), e.bytesWritten)]);
      }
    } else {
      assert accesses + {} == accesses;
    }
  }

  lemma WritesOfOneMore(keep: bool, hash: string -> string, files: map<string, FileInfo>, events: seq<Syscall>,
      e: Syscall)
    requires FilesRecorded(files, Accesses(events)) && WritesRecorded(keep, hash, files, events)
    ensures WritesRecorded(keep, hash, FilesAfter(keep, hash, files, e), events + [e])
  {
    var files' := FilesAfter(keep, hash, files, e);
    forall p | p in files' ensures files'[p].writes == if keep then WritesTo(hash, events + [e], p) else [] {
      WritesToOneMore(hash, events, e, p);
      if p !in files {
        NoWritesTo(hash, events, p);
      }
    }
  }

  lemma OneMoreCallRecorded(keep: bool, hash: string -> string, files: map<string, FileInfo>,
      sockets: map<string, SocketInfo>, events: seq<Syscall>, e: Syscall)
    requires FilesRecorded(files, Accesses(events)) && SocketsRecorded(sockets, Connected(events))
    requires WritesRecorded(keep, hash, files, events)
    ensures FilesRecorded(FilesAfter(keep, hash, files, e), Accesses(events + [e]))
    ensures SocketsRecorded(SocketsAfter(sockets, e), Connected(events + [e]))
    ensures WritesRecorded(keep, hash, FilesAfter(keep, hash, files, e), events + [e])
  {
    OneMoreCall(events, e);
    FilesOfOneMore(keep, hash, files, Accesses(events), e);
    WritesOfOneMore(keep, hash, files, events, e);
    if SocketOf(e).Some? {
      OneMoreSocket(sockets, Connected(events), SocketOf(e).value);
    }
  }

  // ---------------------------------------------------------------- listings

  /** The values of a map in the order of its keys. */
  method ListSorted<V>(m: map<string, V>) returns (keys: seq<string>, list: seq<V>)
    ensures Ascending(LEXICOGRAPHIC, keys) && forall k :: k in keys <==> k in m
    ensures |list| == |keys| && forall i :: 0 <= i < |keys| ==> list[i] == m[keys[i]]
  {
    LexicographicIsLinear();
    keys := Sort(LEXICOGRAPHIC, m.Keys);
    list := [];
    for i := 0 to |keys|
      invariant |list| == i && forall k :: 0 <= k < i ==> list[k] == m[keys[k]]
    {
      list := list + [m[keys[i]]];
    }
  }

  function Paths(list: seq<FileInfo>): seq<string> {
    seq(|list|, i requires 0 <= i < |list| => list[i].path)
  }

  ghost predicate IsFileListing(list: seq<FileInfo>, accesses: set<Access>) {
    && Ascending(LEXICOGRAPHIC, Paths(list))
    && (forall p :: p in Paths(list) <==> p in PathsOf(accesses))
    && (forall i :: 0 <= i < |list| ==> FlagsRecorded(list[i], accesses))
  }

  lemma FilesAreListed(files: map<string, FileInfo>, paths: seq<string>, list: seq<FileInfo>, accesses: set<Access>)
    requires FilesRecorded(files, accesses) && Ascending(LEXICOGRAPHIC, paths) && forall p :: p in paths <==> p in files
    requires |list| == |paths| && forall k :: 0 <= k < |paths| ==> list[k] == files[paths[k]]
    ensures IsFileListing(list, accesses)
  {
    forall k | 0 <= k < |paths| ensures Paths(list)[k] == paths[k] && FlagsRecorded(list[k], accesses) {
      assert paths[k] in paths;
    }
    assert Paths(list) == paths;
  }

  ghost predicate IsSocketListing(list: seq<SocketInfo>, connected: set<SocketInfo>) {
    && (forall i, j :: 0 <= i < j < |list| ==> StringLess(SocketKey(list[i]), SocketKey(list[j])))
    && (forall s :: s in list <==> s in connected)
  }

  lemma SocketsAreListed(sockets: map<string, SocketInfo>, keys: seq<string>, list: seq<SocketInfo>,
      connected: set<SocketInfo>)
    requires SocketsRecorded(sockets, connected) && Ascending(LEXICOGRAPHIC, keys)
    requires forall k :: k in keys <==> k in sockets
    requires |list| == |keys| && forall i :: 0 <= i < |keys| ==> list[i] == sockets[keys[i]]
    ensures IsSocketListing(list, connected)
  {
    forall i, j | 0 <= i < j < |list| ensures StringLess(SocketKey(list[i]), SocketKey(list[j])) {
      assert LEXICOGRAPHIC(keys[i], keys[j]);
      assert keys[i] in keys && keys[j] in keys;
    }
    forall s | s in connected ensures s in list {
      assert SocketKey(s) in keys;
      var k :| 0 <= k < |keys| && keys[k] == SocketKey(s);
      SocketKeyIsInjective(s, sockets[SocketKey(s)]);
      assert list[k] == s;
    }
    forall s | s in list ensures s in connected {
      var k :| 0 <= k < |list| && list[k] == s;
      assert keys[k] in keys;
    }
  }

  ghost predicate IsCommandListing(list: seq<CommandInfo>, executed: set<CommandInfo>) {
    && (forall i, j :: 0 <= i < j < |list| ==> StringLess(CommandKey(list[i]), CommandKey(list[j])))
    && (forall c :: c in list ==> c in executed)
    && (forall c :: c in executed ==> exists i :: 0 <= i < |list| && CommandKey(list[i]) == CommandKey(c))
  }

  lemma CommandsAreListed(commands: map<string, CommandInfo>, keys: seq<string>, list: seq<CommandInfo>,
      executed: set<CommandInfo>)
    requires CommandsRecorded(commands, executed) && Ascending(LEXICOGRAPHIC, keys)
    requires forall k :: k in keys <==> k in commands
    requires |list| == |keys| && forall i :: 0 <= i < |keys| ==> list[i] == commands[keys[i]]
    ensures IsCommandListing(list, executed)
  {
    forall i | 0 <= i < |list| ensures list[i] in executed && CommandKey(list[i]) == keys[i] {
      assert keys[i] in keys;
    }
    forall i, j | 0 <= i < j < |list| ensures StringLess(CommandKey(list[i]), CommandKey(list[j])) {
      assert LEXICOGRAPHIC(keys[i], keys[j]);
    }
    forall c | c in executed ensures exists i :: 0 <= i < |list| && CommandKey(list[i]) == CommandKey(c) {
      assert CommandKey(c) in keys;
      var i :| 0 <= i < |keys| && keys[i] == CommandKey(c);
      assert CommandKey(list[i]) == CommandKey(c);
    }
  }

  /** Different executed commands have different keys. */
  ghost predicate KeysTellApart(executed: set<CommandInfo>) {
    forall a, b :: a in executed && b in executed && CommandKey(a) == CommandKey(b) ==> a == b
  }

  lemma KeysListedOnce(list: seq<CommandInfo>, executed: set<CommandInfo>, i: nat, j: nat)
    requires IsCommandListing(list, executed) && i < |list| && j < |list| && CommandKey(list[i]) == CommandKey(list[j])
    ensures i == j
  {
    Irreflexive(CommandKey(list[i]));
  }

  lemma ListedTellApart(list: seq<CommandInfo>, executed: set<CommandInfo>)
    requires IsCommandListing(list, executed) && forall c :: c in executed ==> c in list
    ensures KeysTellApart(executed)
  {
    forall a, b | a in executed && b in executed && CommandKey(a) == CommandKey(b) ensures a == b {
      var i :| 0 <= i < |list| && list[i] == a;
      var j :| 0 <= j < |list| && list[j] == b;
      KeysListedOnce(list, executed, i, j);
    }
  }

  lemma ToldApartIsListed(list: seq<CommandInfo>, executed: set<CommandInfo>, c: CommandInfo)
    requires IsCommandListing(list, executed) && KeysTellApart(executed) && c in executed
    ensures c in list
  {
    var i :| 0 <= i < |list| && CommandKey(list[i]) == CommandKey(c);
    assert list[i] in list;
  }

  /** Every executed command is listed if and only if no two of them have one key. */
  lemma AllCommandsListedIff(list: seq<CommandInfo>, executed: set<CommandInfo>)
    requires IsCommandListing(list, executed)
    ensures (forall c :: c in executed ==> c in list) <==> KeysTellApart(executed)
  {
    if KeysTellApart(executed) {
      forall c | c in executed ensures c in list {
        ToldApartIsListed(list, executed, c);
      }
    } else if forall c :: c in executed ==> c in list {
      ListedTellApart(list, executed);
    }
  }

  function Flags(f: FileInfo): (string, bool, bool, bool) {
    (f.path, f.read, f.write, f.del)
  }

  ghost predicate SameCalls(a: seq<Syscall>, b: seq<Syscall>) {
    forall e :: e in a <==> e in b
  }

  /** The text occurs in the flags. */
  ghost predicate Mentions(flags: string, name: string) {
    exists a, b :: flags == a + name + b
  }

  lemma MentionsIff(flags: string, name: string)
    ensures NetworkRequest.Contains(flags, name) <==> Mentions(flags, name)
  {
    if NetworkRequest.Contains(flags, name) {
      var i :| 0 <= i <= |flags| && NetworkRequest.HasPrefix(flags[i..], name);
      assert flags == flags[..i] + name + flags[i + |name|..];
    }
    if Mentions(flags, name) {
      var a, b :| flags == a + name + b;
      assert flags[|a|..][..|name|] == name;
      assert NetworkRequest.HasPrefix(flags[|a|..], name);
    }
  }

  /** A stat, or an open for reading or for both. */
  ghost predicate Reads(e: Syscall, path: string) {
    || e == Stat(path)
    || (e.Open? && e.path == path && (Mentions(e.flags, "O_RDWR") || Mentions(e.flags, "O_RDONLY")))
  }

  /** A write, a creation, or an open for writing, for both or with creation. */
  ghost predicate Writes(e: Syscall, path: string) {
    || e == Creat(path) || (e.Write? && e.path == path)
    || (e.Open? && e.path == path
        && (Mentions(e.flags, "O_RDWR") || Mentions(e.flags, "O_CREAT") || Mentions(e.flags, "O_WRONLY")))
  }

  lemma AccessIff(e: Syscall)
    ensures AccessOf(e).Some? <==> e.Write? || e.Creat? || e.Open? || e.Stat? || e.Unlink?
    ensures AccessOf(e).Some? ==>
      var a := AccessOf(e).value;
      a.path == e.path && (a.read <==> Reads(e, a.path)) && (a.write <==> Writes(e, a.path))
      && (a.del <==> e == Unlink(a.path))
  {
    if e.Open? {
      MentionsIff(e.flags, "O_RDWR");
      MentionsIff(e.flags, "O_RDONLY");
      MentionsIff(e.flags, "O_CREAT");
      MentionsIff(e.flags, "O_WRONLY");
    }
  }

  /** What the flags of a listed file mean for the calls: some call read it, some call wrote it, some call deleted
      it. */
  lemma ListedFlagsIff(list: seq<FileInfo>, events: seq<Syscall>, i: nat)
    requires IsFileListing(list, Accesses(events)) && i < |list|
    ensures list[i].read <==> exists e :: e in events && Reads(e, list[i].path)
    ensures list[i].write <==> exists e :: e in events && Writes(e, list[i].path)
    ensures list[i].del <==> Unlink(list[i].path) in events
  {
    var f := list[i];
    assert FlagsRecorded(f, Accesses(events));
    forall e | e in events && AccessOf(e).Some?
      ensures AccessOf(e).value in Accesses(events) && (AccessOf(e).value.read <==> Reads(e, AccessOf(e).value.path))
      ensures AccessOf(e).value.write <==> Writes(e, AccessOf(e).value.path)
      ensures AccessOf(e).value.del <==> e == Unlink(AccessOf(e).value.path)
    {
      AccessIff(e);
    }
    if e :| e in events && Reads(e, f.path) { AccessIff(e); }
    if e :| e in events && Writes(e, f.path) { AccessIff(e); }
    if Unlink(f.path) in events { AccessIff(Unlink(f.path)); }
  }

  /** The paths listed are those of the five calls on files. */
  lemma ListedPathsIff(list: seq<FileInfo>, events: seq<Syscall>, path: string)
    requires IsFileListing(list, Accesses(events))
    ensures (exists i :: 0 <= i < |list| && list[i].path == path) <==>
      exists e :: e in events && (e.Write? || e.Creat? || e.Open? || e.Stat? || e.Unlink?) && e.path == path
  {
    assert forall i :: 0 <= i < |list| ==> Paths(list)[i] == list[i].path;
    assert (exists i :: 0 <= i < |list| && list[i].path == path) <==> path in Paths(list);
    if e :| e in events && (e.Write? || e.Creat? || e.Open? || e.Stat? || e.Unlink?) && e.path == path {
      AccessIff(e);
      assert AccessOf(e).value in Accesses(events);
    }
  }

  /** The sockets listed are those of connections and bindings to an address and a port of IPv4 or IPv6. */
  lemma ListedSocketsIff(list: seq<SocketInfo>, events: seq<Syscall>, address: string, port: nat)
    requires IsSocketListing(list, Connected(events))
    ensures SocketInfo(address, port) in list <==>
      Connect("AF_INET", address, Some(port)) in events || Connect("AF_INET6", address, Some(port)) in events
  {
    if Connect("AF_INET", address, Some(port)) in events {
      assert SocketOf(Connect("AF_INET", address, Some(port))).Some?;
    }
    if Connect("AF_INET6", address, Some(port)) in events {
      assert SocketOf(Connect("AF_INET6", address, Some(port))).Some?;
    }
  }

  /** The listing of files is determined by the accesses. */
  lemma OneListing(a: seq<FileInfo>, b: seq<FileInfo>, accesses: set<Access>)
    requires IsFileListing(a, accesses) && IsFileListing(b, accesses)
    ensures |a| == |b| && forall i :: 0 <= i < |a| ==> Flags(a[i]) == Flags(b[i])
  {
    LexicographicIsLinear();
    SortUnique(LEXICOGRAPHIC, PathsOf(accesses), Paths(a));
    SortUnique(LEXICOGRAPHIC, PathsOf(accesses), Paths(b));
    assert |Paths(a)| == |a| && |Paths(b)| == |b|;
    forall i | 0 <= i < |a| ensures Flags(a[i]) == Flags(b[i]) {
      assert Paths(a)[i] == a[i].path && Paths(b)[i] == b[i].path;
      assert FlagsRecorded(a[i], accesses) && FlagsRecorded(b[i], accesses);
    }
  }

  /** The listing of files does not depend on the order of the calls, nor on how often each is made. */
  lemma OrderDoesNotMatter(a: seq<FileInfo>, b: seq<FileInfo>, eventsA: seq<Syscall>, eventsB: seq<Syscall>)
    requires IsFileListing(a, Accesses(eventsA)) && IsFileListing(b, Accesses(eventsB)) && SameCalls(eventsA, eventsB)
    ensures |a| == |b| && forall i :: 0 <= i < |a| ==> Flags(a[i]) == Flags(b[i])
  {
    forall x ensures x in Accesses(eventsA) <==> x in Accesses(eventsB) {}
    assert Accesses(eventsA) == Accesses(eventsB);
    OneListing(a, b, Accesses(eventsA));
  }

  /** In a listing no socket is repeated, and the ports of one address below 100000 are in numeric order. */
  lemma SocketListingOrder(list: seq<SocketInfo>, connected: set<SocketInfo>, i: nat, j: nat)
    requires IsSocketListing(list, connected) && i < j < |list|
    ensures list[i] != list[j]
    ensures list[i].address == list[j].address && list[i].port < 100000 && list[j].port < 100000 ==>
      list[i].port < list[j].port
  {
    var (a, b) := (list[i], list[j]);
    Irreflexive(SocketKey(a));
    if a.address == b.address && b.port < a.port < 100000 {
      KeysFollowPorts(a.address, b.port, a.port);
      Transitive(SocketKey(a), SocketKey(b), SocketKey(a));
    }
  }
}
