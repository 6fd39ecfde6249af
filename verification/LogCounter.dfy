/** The count of a log's lines that name an emptied entry, which is not begun again while the log grows. A
    byte is a char below 256. */
module LogCounter {
  import opened Options

  type Log = seq<char>

  const EMPTIED: Log := "has an empty entry"
  const RESET: Log := "device reset"

  predicate EndsWith(line: Log, end: Log) {
    |line| >= |end| && line[|line| - |end|..] == end
  }

  predicate At(line: Log, i: nat, part: Log) { i + |part| <= |line| && line[i..i + |part|] == part }

  predicate Contains(line: Log, part: Log) {
    exists i :: 0 <= i <= |line| && At(line, i, part)
  }

  function Counted(n: nat, line: Log): nat {
    if EndsWith(line, RESET) then 0 else if Contains(line, EMPTIED) then n + 1 else n
  }

  /** Where the first line ends. */
  function LineEnd(b: Log): (i: Option<nat>)
    ensures i.Some? ==> i.value < |b| && b[i.value] == '\n' && '\n' !in b[..i.value]
    ensures i.None? ==> '\n' !in b
  {
    if b == [] then None
    else if b[0] == '\n' then Some(0)
    else
      match LineEnd(b[1..])
      case None => None
      case Some(i) => assert b[..i + 1][1..] == b[1..][..i]; Some(i + 1)
  }

  /** The complete lines. */
  function Lines(b: Log): seq<Log>
    decreases |b|
  {
    match LineEnd(b)
    case None => []
    case Some(i) => [b[..i]] + Lines(b[i + 1..])
  }

  /** How many lines name an emptied entry since the last that ends in a reset. */
  function Since(lines: seq<Log>): nat {
    if lines == [] then 0
    else
      var n := |lines| - 1;
      if EndsWith(lines[n], RESET) then 0
      else Since(lines[..n]) + if Contains(lines[n], EMPTIED) then 1 else 0
  }

  /** The count over all of a log. */
  function FullScan(b: Log): nat { Since(Lines(b)) }

  predicate WholeLines(b: Log) { b == [] || b[|b| - 1] == '\n' }

  lemma {:induction false} LinesOfBoth(a: Log, b: Log)
    requires WholeLines(a)
    ensures Lines(a + b) == Lines(a) + Lines(b)
    decreases |a|
  {
    hide LineEnd, Lines;
    if a == [] {
      NoLines();
      assert a + b == b && [] + Lines(b) == Lines(b);
    } else {
      assert LineEnd(a).Some? by {
        assert a[|a| - 1] in a;
      }
      var i := LineEnd(a).value;
      FirstLine(a, b);
      assert (a + b)[i + 1..] == a[i + 1..] + b && (a + b)[..i] == a[..i];
      LinesFrom(a);
      LinesFrom(a + b);
      LinesOfBoth(a[i + 1..], b);
      assert [a[..i]] + (Lines(a[i + 1..]) + Lines(b)) == [a[..i]] + Lines(a[i + 1..]) + Lines(b);
    }
  }

  lemma {:induction false} FirstLine(a: Log, b: Log)
    requires LineEnd(a).Some?
    ensures LineEnd(a + b) == LineEnd(a)
  {
    if a[0] != '\n' {
      assert (a + b)[1..] == a[1..] + b;
      FirstLine(a[1..], b);
    }
  }

  lemma SinceMore(lines: seq<Log>, line: Log)
    ensures Since(lines + [line]) == Counted(Since(lines), line)
  {
    assert (lines + [line])[..|lines|] == lines;
  }

  /** One past the last line's end. */
  function WholeEnd(b: Log): (n: nat)
    ensures n <= |b| && WholeLines(b[..n]) && '\n' !in b[n..]
  {
    if b == [] || b[|b| - 1] == '\n' then |b|
    else
      var n := WholeEnd(b[..|b| - 1]);
      assert b[..|b| - 1][..n] == b[..n] && b[n..] == b[..|b| - 1][n..] + [b[|b| - 1]];
      n
  }

  /** The rest of a line not yet ended counts for nothing. */
  lemma ScanOfWhole(b: Log)
    ensures FullScan(b) == FullScan(b[..WholeEnd(b)])
  {
    hide LineEnd, Lines, Since;
    var n := WholeEnd(b);
    assert b == b[..n] + b[n..];
    LinesOfBoth(b[..n], b[n..]);
    NoneWithin(b[n..]);
    assert Lines(b[..n]) + [] == Lines(b[..n]);
  }

  lemma NoneWithin(b: Log)
    requires '\n' !in b
    ensures Lines(b) == []
  {
  }

  datatype File = File(inode: nat, content: Log)

  /** What the counter remembers: the log counted last, its file, and the bytes counted. */
  datatype Cache = Cache(path: string, inode: nat, read: Log)

  const NOTHING: Cache := Cache("", 0, [])

  /** The bytes counted before that the next count of the file carries on from. */
  function Carried(k: Cache, p: string, f: File): (from: Log)
    ensures |from| <= |f.content|
  {
    if k.path == p && k.inode == f.inode && |k.read| <= |f.content| then k.read else []
  }

  /** A count carries on over the whole lines after as many bytes as were counted. */
  function Asked(k: Cache, p: string, f: File): Cache {
    var from := Carried(k, p, f);
    var buf := f.content[|from|..];
    Cache(p, f.inode, from + buf[..WholeEnd(buf)])
  }

  class Counter {
    var path: string
    var inode: nat
    var offset: nat
    var count: nat
    ghost var read: Log

    ghost predicate Valid()
      reads this
    {
      offset == |read| && WholeLines(read) && count == FullScan(read)
    }

    ghost function Now(): Cache
      reads this
    {
      Cache(path, inode, read)
    }

    constructor ()
      ensures Valid() && Now() == NOTHING
    {
      path, inode, offset, count, read := "", 0, 0, 0, [];
    }

    /** The count of a log, which may be missing. */
    method EmptiedEntryLines(p: string, file: Option<File>) returns (n: nat)
      requires Valid()
      modifies this
      ensures Valid()
      ensures Now() == if file.Some? then Asked(old(Now()), p, file.value) else old(Now())
      ensures n == if file.Some? then FullScan(Now().read) else 0
      ensures file.Some? && Intact(old(Now()), p, file.value) ==> n == FullScan(file.value.content)
    {
      hide Lines, Since, LineEnd, WholeEnd, EndsWith, Contains, FullScan;
      if file.None? {
        return 0;
      }
      var f := file.value;
      ghost var before := Now();
      if path != p || inode != f.inode || offset > |f.content| {
        path, inode, offset, count := p, f.inode, 0, 0;
        read := [];
        NothingCounted();
      }
      var buf := f.content[offset..];
      var end := WholeEnd(buf);
      count := CountLines(buf[..end], count, read);
      WholeBoth(read, buf[..end]);
      read := read + buf[..end];
      offset := offset + end;
      n := count;
      if Intact(before, p, f) {
        IntactCountsRight(before, p, f);
      }
    }
  }

  lemma WholeBoth(a: Log, b: Log)
    requires WholeLines(a) && WholeLines(b)
    ensures WholeLines(a + b)
  {
  }

  /** The file counted last begins with the bytes counted, or is shorter. */
  ghost predicate Intact(k: Cache, p: string, f: File) {
    WholeLines(k.read) && Carried(k, p, f) <= f.content
  }

  /** Then the count is a full scan's. */
  lemma IntactCountsRight(k: Cache, p: string, f: File)
    requires Intact(k, p, f)
    ensures var read := Asked(k, p, f).read;
            FullScan(read) == FullScan(f.content) && WholeLines(read) && read <= f.content
  {
    hide WholeEnd, FullScan;
    var from := Carried(k, p, f);
    var buf := f.content[|from|..];
    assert f.content == from + buf;
    Whole(from, buf, WholeEnd(buf));
    ScanOfWhole(f.content);
  }

  /** The count carried on over whole lines. */
  method CountLines(b: Log, before: nat, ghost read: Log) returns (count: nat)
    requires WholeLines(b) && WholeLines(read) && before == FullScan(read)
    ensures count == FullScan(read + b)
  {
    hide Lines, Since, LineEnd, EndsWith, Contains;
    count := before;
    ghost var lines := Lines(read);
    ghost var done := lines;
    LinesOfBoth(read, b);
    var rest := b;
    while rest != []
      invariant WholeLines(rest)
      invariant count == Since(done) && done + Lines(rest) == lines + Lines(b)
      decreases |rest|
    {
      assert rest[|rest| - 1] in rest;
      var i := LineEnd(rest).value;
      var line := rest[..i];
      LinesFrom(rest);
      if EndsWith(line, RESET) {
        count := 0;
      } else if Contains(line, EMPTIED) {
        count := count + 1;
      }
      SinceMore(done, line);
      assert done + ([line] + Lines(rest[i + 1..])) == done + [line] + Lines(rest[i + 1..]);
      done := done + [line];
      rest := rest[i + 1..];
    }
    NoLines();
    assert done + [] == done;
  }

  lemma NoLines()
    ensures Lines([]) == [] && Since([]) == 0
  {
  }

  lemma NothingCounted()
    ensures FullScan([]) == 0
  {
  }

  lemma LinesFrom(b: Log)
    requires LineEnd(b).Some?
    ensures Lines(b) == [b[..LineEnd(b).value]] + Lines(b[LineEnd(b).value + 1..])
  {
    hide LineEnd;
  }

  lemma WholeEndIs(b: Log, n: nat)
    requires n <= |b| && WholeLines(b[..n]) && '\n' !in b[n..]
    ensures WholeEnd(b) == n
  {
    hide WholeEnd;
    var m := WholeEnd(b);
    LastOfPrefix(b, n, m);
    LastOfPrefix(b, m, n);
  }

  /** A line's end before `n` is after any place no line ends from. */
  lemma LastOfPrefix(b: Log, n: nat, m: nat)
    requires n <= |b| && m <= |b| && WholeLines(b[..n]) && '\n' !in b[m..]
    ensures n <= m
  {
    if n > 0 {
      assert b[n - 1] == b[..n][n - 1] == '\n';
    }
    forall k | m <= k < |b| ensures b[k] != '\n' {
      assert b[k] == b[m..][k - m];
    }
  }

  lemma Whole(a: Log, b: Log, n: nat)
    requires WholeLines(a) && n == WholeEnd(b)
    ensures WholeLines(a + b[..n]) && (a + b)[..WholeEnd(a + b)] == a + b[..n]
  {
    hide WholeEnd;
    assert (a + b)[..|a| + n] == a + b[..n] && (a + b)[|a| + n..] == b[n..];
    WholeEndIs(a + b, |a| + n);
  }

  // ---- logs as they are written

  /** The logs by path, each a file with an inode. */
  type Disk = map<string, File>

  datatype Change = Append(path: string, bytes: Log) | Fresh(path: string, inode: nat)
                  | Rename(path: string, to: string) | Remove(path: string)

  /** A fresh log's inode is any that no other log has. */
  ghost predicate Allowed(d: Disk, c: Change) {
    c.Fresh? ==> forall q :: q in d && q != c.path ==> d[q].inode != c.inode
  }

  /** A log is appended to, started anew in an empty file, renamed as rotation does, or removed. */
  function Changed(d: Disk, c: Change): Disk {
    match c
    case Append(p, bytes) => if p in d then d[p := d[p].(content := d[p].content + bytes)] else d
    case Fresh(p, inode) => d[p := File(inode, [])]
    case Rename(p, to) => if p in d then (d - {p})[to := d[p]] else d
    case Remove(p) => d - {p}
  }

  datatype Event = Written(change: Change) | Ask(path: string)

  /** A fresh log takes the inode of the file whose bytes are remembered. */
  predicate Reuses(k: Cache, c: Change) {
    c.Fresh? && c.inode == k.inode && k.read != []
  }

  function Next(k: Cache, d: Disk, e: Event): (Cache, Disk) {
    match e
    case Written(c) => (k, Changed(d, c))
    case Ask(p) => (if p in d then Asked(k, p, d[p]) else k, d)
  }

  ghost predicate Happens(d: Disk, e: Event) { e.Written? ==> Allowed(d, e.change) }

  ghost predicate CountsRight(k: Cache, d: Disk, e: Event) {
    e.Ask? && e.path in d ==> FullScan(Asked(k, e.path, d[e.path]).read) == FullScan(d[e.path].content)
  }

  /** A run of allowed changes, none of which reuses the remembered inode, and of counts. */
  ghost predicate Runs(k: Cache, d: Disk, run: seq<Event>)
    decreases |run|
  {
    run != [] ==>
      var (l, e) := Next(k, d, run[0]);
      Happens(d, run[0]) && !(run[0].Written? && Reuses(k, run[0].change)) && Runs(l, e, run[1..])
  }

  ghost function After(k: Cache, d: Disk, run: seq<Event>): (Cache, Disk)
    decreases |run|
  {
    if run == [] then (k, d) else var (l, e) := Next(k, d, run[0]); After(l, e, run[1..])
  }

  /** Every count of the run is a full scan's. */
  ghost predicate AllRight(k: Cache, d: Disk, run: seq<Event>)
    decreases |run|
  {
    run != [] ==>
      var (l, e) := Next(k, d, run[0]);
      CountsRight(k, d, run[0]) && AllRight(l, e, run[1..])
  }

  /** No two paths have one file, and one with the remembered inode begins with the bytes remembered. */
  ghost predicate Remembered(k: Cache, d: Disk) {
    && WholeLines(k.read)
    && (forall p, q :: p in d && q in d && d[p].inode == d[q].inode ==> p == q)
    && (forall p :: p in d && d[p].inode == k.inode ==> k.read <= d[p].content)
  }

  lemma ChangeRemembers(k: Cache, d: Disk, c: Change)
    requires Remembered(k, d) && Allowed(d, c) && !Reuses(k, c)
    ensures Remembered(k, Changed(d, c))
  {
    if c.Append? && c.path in d && d[c.path].inode == k.inode {
      assert k.read <= d[c.path].content + c.bytes;
    }
  }

  lemma AskRemembers(k: Cache, d: Disk, p: string)
    requires Remembered(k, d) && p in d
    ensures Remembered(Asked(k, p, d[p]), d) && CountsRight(k, d, Ask(p))
  {
    hide Asked, FullScan;
    IntactCountsRight(k, p, d[p]);
    assert Asked(k, p, d[p]).inode == d[p].inode by {
      InodeAsked(k, p, d[p]);
    }
  }

  lemma InodeAsked(k: Cache, p: string, f: File)
    ensures Asked(k, p, f).inode == f.inode
  {
  }

  /** Every count of a run in which no fresh log takes the remembered inode is a full scan's. */
  lemma {:induction false} RunCountsRight(k: Cache, d: Disk, run: seq<Event>)
    requires Remembered(k, d) && Runs(k, d, run)
    ensures AllRight(k, d, run)
    ensures var (l, e) := After(k, d, run); Remembered(l, e)
    decreases |run|
  {
    hide Remembered, Changed, Asked, Reuses, Allowed, FullScan;
    if run != [] {
      var (l, e) := Next(k, d, run[0]);
      match run[0] {
        case Written(c) => ChangeRemembers(k, d, c);
        case Ask(p) =>
          if p in d {
            AskRemembers(k, d, p);
          }
      }
      RunCountsRight(l, e, run[1..]);
    }
  }

  /** The counter, after any such run from its start, counts any log there is as a full scan does. */
  method CountAfter(c: Counter, d: Disk, ghost before: Disk, ghost run: seq<Event>, p: string) returns (n: nat)
    requires Remembered(NOTHING, before) && Runs(NOTHING, before, run)
    requires c.Valid() && (c.Now(), d) == After(NOTHING, before, run)
    modifies c
    ensures n == if p in d then FullScan(d[p].content) else 0
    ensures c.Valid() && (c.Now(), d) == Next(old(c.Now()), d, Ask(p))
  {
    hide FullScan, Remembered, Runs, After, Asked, AllRight;
    RunCountsRight(NOTHING, before, run);
    if p in d {
      AskRemembers(c.Now(), d, p);
    }
    n := c.EmptiedEntryLines(p, if p in d then Some(d[p]) else None);
  }

  // ---- which lines count

  lemma EndsWithIff(line: Log, end: Log)
    ensures EndsWith(line, end) <==> exists text: Log :: line == text + end
  {
    if EndsWith(line, end) {
      assert line == line[..|line| - |end|] + end;
    }
  }

  lemma ContainsIff(line: Log, part: Log)
    ensures Contains(line, part) <==> exists text: Log, rest: Log :: line == Between(text, part, rest)
  {
    if Contains(line, part) {
      var i :| 0 <= i <= |line| && At(line, i, part);
      assert line == Between(line[..i], part, line[i + |part|..]);
    }
    if exists text: Log, rest: Log :: line == Between(text, part, rest) {
      var text: Log, rest: Log :| line == Between(text, part, rest);
      assert line[|text|..|text| + |part|] == part;
      assert At(line, |text|, part);
    }
  }

  function Between(text: Log, part: Log, rest: Log): Log { text + part + rest }

  /** A line after whole lines begins the count anew if it ends in a reset, whatever stands before; adds one if
      it tells anywhere of an emptied entry; and changes nothing otherwise. */
  lemma LineCounts(b: Log, line: Log)
    requires WholeLines(b) && '\n' !in line
    ensures var n := FullScan(b + (line + "\n"));
            && ((exists text: Log :: line == text + "device reset") ==> n == 0)
            && (!(exists text: Log :: line == text + "device reset") ==>
                  if exists text: Log, rest: Log :: line == Between(text, "has an empty entry", rest)
                  then n == FullScan(b) + 1
                  else n == FullScan(b))
  {
    hide FullScan, EndsWith, Contains;
    ScanMore(b, line);
    EndsWithIff(line, RESET);
    ContainsIff(line, EMPTIED);
  }

  // ---- a fresh log in the remembered inode

  function Newlines(n: nat): (b: Log)
    ensures |b| == n && WholeLines(b)
  {
    if n == 0 then [] else Newlines(n - 1) + "\n"
  }

  lemma LineAlone(line: Log)
    requires '\n' !in line
    ensures Lines(line + "\n") == [line]
  {
    hide LineEnd, Lines;
    var b := line + "\n";
    assert b[|line|] == '\n';
    var i := LineEnd(b).value;
    LinesFrom(b);
    assert b[i + 1..] == [] && b[..i] == line;
    NoLines();
  }

  /** A line after whole lines is counted. */
  lemma ScanMore(b: Log, line: Log)
    requires WholeLines(b) && '\n' !in line
    ensures FullScan(b + (line + "\n")) == Counted(FullScan(b), line)
  {
    hide Lines, Since, EndsWith, Contains;
    LinesOfBoth(b, line + "\n");
    LineAlone(line);
    SinceMore(Lines(b), line);
  }

  lemma ShortLine(n: nat, line: Log)
    requires |line| < |EMPTIED| && !EndsWith(line, RESET)
    ensures Counted(n, line) == n
  {
  }

  lemma {:induction false} NewlinesCount(n: nat)
    ensures FullScan(Newlines(n)) == 0
  {
    hide FullScan;
    if n == 0 {
      NothingCounted();
    } else {
      NewlinesCount(n - 1);
      ScanMore(Newlines(n - 1), "");
      ShortLine(0, "");
      assert "" + "\n" == "\n";
    }
  }

  /** Bytes whose count, carried on from `read`'s, is wrong. */
  function Misread(read: Log): Log
    requires read != []
  {
    if FullScan(read) > 0 then Newlines(|read|) else Newlines(|read| - 1) + (EMPTIED + "\n")
  }

  lemma MisreadCount(read: Log)
    requires read != [] && WholeLines(read)
    ensures var b := Misread(read); |read| <= |b| && FullScan(read + b[|read|..]) != FullScan(b)
    ensures WholeEnd(Misread(read)[|read|..]) == |Misread(read)| - |read|
  {
    hide FullScan, Newlines, Counted, Contains, WholeEnd;
    var n, b := |read|, Misread(read);
    if FullScan(read) > 0 {
      NewlinesCount(n);
      assert b[n..] == [] && read + [] == read;
      WholeEndIs([], 0);
    } else {
      var rest := EMPTIED[1..];
      assert b[n..] == rest + "\n" by {
        assert EMPTIED + "\n" == [EMPTIED[0]] + (rest + "\n");
        assert b == Newlines(n - 1) + [EMPTIED[0]] + (rest + "\n");
      }
      NewlinesCount(n - 1);
      ScanMore(Newlines(n - 1), EMPTIED);
      ScanMore(read, rest);
      ShortLine(0, rest);
      EmptiedCounts(0);
      WholeEndIs(rest + "\n", |rest| + 1);
    }
  }

  lemma EmptiedCounts(n: nat)
    ensures Counted(n, EMPTIED) == n + 1
  {
    assert At(EMPTIED, 0, EMPTIED);
    assert EMPTIED[|EMPTIED| - 1] != RESET[|RESET| - 1];
  }

  /** The run that miscounts after a fresh log took the remembered inode: the log comes to the remembered
      path, grows past what was read of the other, and is counted. */
  function Miscount(k: Cache, q: string): seq<Event>
    requires k.read != []
  {
    [Written(Rename(q, k.path)), Written(Append(k.path, Misread(k.read))), Ask(k.path)]
  }

  lemma MiscountRuns(k: Cache, d: Disk, q: string)
    requires Remembered(k, d) && k.read != [] && Allowed(d, Fresh(q, k.inode))
    ensures var e := Changed(d, Fresh(q, k.inode));
            Runs(k, e, Miscount(k, q)) && !AllRight(k, e, Miscount(k, q))
  {
    hide FullScan, Misread, WholeEnd;
    MisreadCount(k.read);
    var run, e := Miscount(k, q), Changed(d, Fresh(q, k.inode));
    var b := Misread(k.read);
    var e1 := Changed(e, Rename(q, k.path));
    var e2 := Changed(e1, Append(k.path, b));
    assert e2[k.path] == File(k.inode, b);
    assert b[|k.read|..][..|b| - |k.read|] == b[|k.read|..];
    assert !CountsRight(k, e2, Ask(k.path));
    OneMore(k, e2, Ask(k.path), []);
    OneMore(k, e1, run[1], [Ask(k.path)]);
    OneMore(k, e, run[0], [run[1], Ask(k.path)]);
    assert run == [run[0]] + [run[1], Ask(k.path)];
  }

  lemma OneMore(k: Cache, d: Disk, e: Event, rest: seq<Event>)
    requires Happens(d, e) && !(e.Written? && Reuses(k, e.change))
    ensures var (l, f) := Next(k, d, e);
            && Runs(k, d, [e] + rest) == Runs(l, f, rest)
            && AllRight(k, d, [e] + rest) == (CountsRight(k, d, e) && AllRight(l, f, rest))
  {
    hide Happens, Reuses, CountsRight, Next;
    assert ([e] + rest)[1..] == rest;
  }

  /** Once a fresh log has an inode, every later count is a full scan's, however the run goes on, exactly if
      that is not the remembered inode with something read. */
  lemma FreshCountsRightIff(k: Cache, d: Disk, q: string, inode: nat)
    requires Remembered(k, d) && Allowed(d, Fresh(q, inode))
    ensures var e := Changed(d, Fresh(q, inode));
            (forall run :: Runs(k, e, run) ==> AllRight(k, e, run)) <==> inode != k.inode || k.read == []
  {
    hide Remembered, Allowed, Changed, Runs, AllRight, Asked;
    var e := Changed(d, Fresh(q, inode));
    if inode != k.inode || k.read == [] {
      ChangeRemembers(k, d, Fresh(q, inode));
      forall run | Runs(k, e, run) ensures AllRight(k, e, run) {
        RunCountsRight(k, e, run);
      }
    } else {
      MiscountRuns(k, d, q);
    }
  }
}
