// The socket protocol of the media engine: newline framing of arbitrary input chunks, and
// an output queue behind arbitrary partial writes.
module LineFraming {
  import opened Common
  import opened Lines

  const MAX_LINE: nat := 65536
  const READ_CHUNK: nat := 8192

  // ---------- lines of a stream ----------

  function FirstNl(b: Bytes): (i: nat)
    ensures i <= |b| && (i < |b| ==> b[i] == NL) && forall k | 0 <= k < i :: b[k] != NL
  {
    if b == [] then 0 else if b[0] == NL then 0 else 1 + FirstNl(b[1..])
  }

  predicate NoNl(b: Bytes) { forall i | 0 <= i < |b| :: b[i] != NL }

  /** The complete lines of a stream, without their newlines. */
  function CompleteLines(b: Bytes): seq<Bytes>
    decreases |b|
  {
    var i := FirstNl(b);
    if i == |b| then [] else [b[..i]] + CompleteLines(b[i + 1..])
  }

  /** What follows the last newline. */
  function Tail(b: Bytes): (t: Bytes)
    ensures |t| <= |b| && NoNl(t)
    decreases |b|
  {
    var i := FirstNl(b);
    if i == |b| then b else Tail(b[i + 1..])
  }

  predicate AllShort(b: Bytes) {
    forall i | 0 <= i < |CompleteLines(b)| :: |CompleteLines(b)[i]| <= MAX_LINE
  }

  lemma FirstNlIs(b: Bytes, i: nat)
    requires i <= |b| && (i < |b| ==> b[i] == NL) && forall k | 0 <= k < i :: b[k] != NL
    ensures FirstNl(b) == i
  {
  }

  lemma LinesStep(b: Bytes, i: nat)
    requires i < |b| && b[i] == NL && forall k | 0 <= k < i :: b[k] != NL
    ensures CompleteLines(b) == [b[..i]] + CompleteLines(b[i + 1..]) && Tail(b) == Tail(b[i + 1..])
  {
    FirstNlIs(b, i);
  }

  /** Cutting a stream anywhere changes neither its lines nor its tail. */
  lemma {:induction false} SplitAppend(a: Bytes, b: Bytes)
    ensures CompleteLines(a + b) == CompleteLines(a) + CompleteLines(Tail(a) + b)
    ensures Tail(a + b) == Tail(Tail(a) + b)
    decreases |a|
  {
    hide CompleteLines, Tail, FirstNl;
    var i := FirstNl(a);
    if i == |a| {
      NoNlSplit(a);
    } else {
      var (first, rest) := (a[..i], a[i + 1..]);
      LinesStep(a, i);
      LinesStepAppend(a, b, i);
      SplitAppend(rest, b);
      Regroup([first], CompleteLines(rest), CompleteLines(Tail(rest) + b));
    }
  }

  lemma LinesStepAppend(a: Bytes, b: Bytes, i: nat)
    requires i < |a| && a[i] == NL && forall k | 0 <= k < i :: a[k] != NL
    ensures CompleteLines(a + b) == [a[..i]] + CompleteLines(a[i + 1..] + b) && Tail(a + b) == Tail(a[i + 1..] + b)
  {
    LinesStep(a + b, i);
    hide CompleteLines, Tail;
    assert (a + b)[..i] == a[..i] && (a + b)[i + 1..] == a[i + 1..] + b;
  }

  lemma NoNlSplit(b: Bytes)
    requires NoNl(b)
    ensures CompleteLines(b) == [] && Tail(b) == b
  {
    FirstNlIs(b, |b|);
  }

  // ---------- input ----------

  /** `handled` are the lines passed to the handler, `discards` the over-long buffers dropped. */
  datatype Input = Input(buf: Bytes, handled: seq<Bytes>, discards: nat)

  const EMPTY := Input([], [], 0)

  function Feed(s: Input, chunk: Bytes): Input {
    var all := s.buf + chunk;
    var rest := Tail(all);
    if |rest| > MAX_LINE then Input([], s.handled + CompleteLines(all), s.discards + 1)
    else Input(rest, s.handled + CompleteLines(all), s.discards)
  }

  function FeedAll(s: Input, chunks: seq<Bytes>): Input {
    if chunks == [] then s else Feed(FeedAll(s, chunks[..|chunks| - 1]), chunks[|chunks| - 1])
  }

  function Flatten(chunks: seq<Bytes>): Bytes {
    if chunks == [] then [] else Flatten(chunks[..|chunks| - 1]) + chunks[|chunks| - 1]
  }

  /** A long pending tail that meets a newline is a long complete line. */
  lemma LongTailBreaks(s: Bytes, chunk: Bytes)
    requires |Tail(s)| > MAX_LINE && !NoNl(chunk)
    ensures !AllShort(s + chunk)
  {
    hide CompleteLines, Tail, FirstNl;
    var t := Tail(s) + chunk;
    SplitAppend(s, chunk);
    var i := FirstNl(t);
    var k :| 0 <= k < |chunk| && chunk[k] == NL;
    assert t[|Tail(s)| + k] == NL;
    LinesStep(t, i);
    var n := |CompleteLines(s)|;
    assert CompleteLines(s + chunk)[n] == t[..i];
  }

  lemma ShortPrefix(s: Bytes, chunk: Bytes)
    requires AllShort(s + chunk)
    ensures AllShort(s)
  {
    SplitAppend(s, chunk);
    forall i | 0 <= i < |CompleteLines(s)| ensures |CompleteLines(s)[i]| <= MAX_LINE {
      assert CompleteLines(s + chunk)[i] == CompleteLines(s)[i];
    }
  }

  /** If every complete line fits, exactly the complete lines are handled, in order, for
      every way the stream is cut into reads. */
  lemma {:induction false} FramingExact(chunks: seq<Bytes>)
    requires AllShort(Flatten(chunks))
    ensures var (st, s) := (FeedAll(EMPTY, chunks), Flatten(chunks));
            && st.handled == CompleteLines(s) && NoNl(st.buf)
            && (|Tail(s)| <= MAX_LINE ==> st.buf == Tail(s))
  {
    if chunks != [] {
      var (front, chunk) := (chunks[..|chunks| - 1], chunks[|chunks| - 1]);
      var (s, st) := (Flatten(front), FeedAll(EMPTY, front));
      ShortPrefix(s, chunk);
      FramingExact(front);
      SplitAppend(s, chunk);
      if |Tail(s)| > MAX_LINE {
        if !NoNl(chunk) { LongTailBreaks(s, chunk); }
        NoNlSplit(Tail(s) + chunk);
        NoNlSplit(st.buf + chunk);
      }
    }
  }

  // ---------- exactly when the chunking matters ----------

  /** Reads of at least one byte and at most the read buffer. */
  predicate Reads(chunks: seq<Bytes>) { forall i | 0 <= i < |chunks| :: 1 <= |chunks[i]| <= READ_CHUNK }

  /** One read per byte. */
  function Drip(b: Bytes): seq<Bytes> { seq(|b|, i requires 0 <= i < |b| => [b[i]]) }

  lemma {:induction false} DripFlatten(b: Bytes)
    ensures Flatten(Drip(b)) == b && Reads(Drip(b))
  {
    if b != [] {
      var front := b[..|b| - 1];
      DripFlatten(front);
      assert Drip(b)[..|b| - 1] == Drip(front);
      assert b == front + [b[|b| - 1]];
    }
  }

  lemma {:induction false} FeedAllAppend(s: Input, a: seq<Bytes>, b: seq<Bytes>)
    ensures FeedAll(s, a + b) == FeedAll(FeedAll(s, a), b)
  {
    hide Feed;
    if b == [] {
      assert a + b == a;
    } else {
      var (front, c) := (b[..|b| - 1], b[|b| - 1]);
      FeedAllAppend(s, a, front);
      FeedAllSnoc(s, a + front, c);
      FeedAllSnoc(FeedAll(s, a), front, c);
      assert a + b == (a + front) + [c] && b == front + [c];
      hide FeedAll;
    }
  }

  lemma FeedAllSnoc(s: Input, a: seq<Bytes>, c: Bytes)
    ensures FeedAll(s, a + [c]) == Feed(FeedAll(s, a), c)
  {
    assert (a + [c])[..|a|] == a;
    hide Feed;
  }

  lemma {:induction false} FlattenAppend(a: seq<Bytes>, b: seq<Bytes>)
    ensures Flatten(a + b) == Flatten(a) + Flatten(b)
  {
    if b == [] {
      assert a + b == a;
    } else {
      var (front, c) := (b[..|b| - 1], b[|b| - 1]);
      FlattenAppend(a, front);
      assert (a + b)[..|a + b| - 1] == a + front;
      assert Flatten(a + b) == (Flatten(a) + Flatten(front)) + c;
    }
  }

  /** Byte by byte, an over-long line is dropped every MAX_LINE + 1 bytes. */
  lemma {:induction false} DripLong(s: Input, b: Bytes)
    requires NoNl(s.buf) && |s.buf| <= MAX_LINE && NoNl(b)
    ensures var d := FeedAll(s, Drip(b));
            && d.handled == s.handled && NoNl(d.buf) && |d.buf| == (|s.buf| + |b|) % (MAX_LINE + 1)
  {
    if b != [] {
      var front := b[..|b| - 1];
      DripLong(s, front);
      assert Drip(b)[..|b| - 1] == Drip(front);
      NoNlSplit(FeedAll(s, Drip(front)).buf + [b[|b| - 1]]);
      Wrap(|s.buf| + |front|);
    }
  }

  lemma Wrap(n: nat)
    ensures (n + 1) % (MAX_LINE + 1) == if n % (MAX_LINE + 1) == MAX_LINE then 0 else n % (MAX_LINE + 1) + 1
  {
  }

  /** A newline hands over whatever the buffer holds. */
  lemma NewlineHandles(s: Input)
    requires NoNl(s.buf) && |s.buf| <= MAX_LINE
    ensures Feed(s, [NL]) == Input([], s.handled + [s.buf], s.discards)
  {
    var t := s.buf + [NL];
    FirstNlIs(t, |s.buf|);
    assert t[..|s.buf|] == s.buf && t[|s.buf| + 1..] == [];
    NoNlSplit([]);
  }

  /** Feeding only adds to what was handled. */
  lemma {:induction false} HandledGrows(s: Input, chunks: seq<Bytes>)
    ensures s.handled <= FeedAll(s, chunks).handled
  {
    if chunks != [] { HandledGrows(s, chunks[..|chunks| - 1]); }
  }

  /** The same line, one read per byte or with its bytes MAX_LINE and MAX_LINE + 1 in one
      read, reaches the handler with different lengths. */
  lemma LongLineDiffers(s: Input, line: Bytes)
    requires NoNl(line) && |line| > MAX_LINE && s.buf == []
    ensures var one := Drip(line + [NL]);
            var b := line + [NL];
            var two := Drip(line[..MAX_LINE]) + [b[MAX_LINE..MAX_LINE + 2]] + Drip(b[MAX_LINE + 2..]);
            && Flatten(one) == Flatten(two) == line + [NL] && Reads(one) && Reads(two)
            && FeedAll(s, one).buf == [] == FeedAll(s, two).buf
            && |FeedAll(s, one).handled| == |FeedAll(s, two).handled| == |s.handled| + 1
            && |FeedAll(s, one).handled[|s.handled|]| != |FeedAll(s, two).handled[|s.handled|]|
  {
    DripOne(s, line);
    DripTwo(s, line);
    ModDiffers(|line|);
  }

  lemma ModDiffers(n: nat)
    requires n > MAX_LINE
    ensures n == MAX_LINE + 1 ==> n % (MAX_LINE + 1) == 0
    ensures n > MAX_LINE + 1 ==> n % (MAX_LINE + 1) != (n - MAX_LINE - 2) % (MAX_LINE + 1)
  {
    if n > MAX_LINE + 1 { Wrap(n - MAX_LINE - 2); }
    assert n == (n - MAX_LINE - 1) + (MAX_LINE + 1);
  }

  lemma DripSnoc(b: Bytes, x: bv8)
    ensures Drip(b + [x]) == Drip(b) + [[x]]
  {
  }

  lemma DripOne(s: Input, line: Bytes)
    requires NoNl(line) && s.buf == []
    ensures Flatten(Drip(line + [NL])) == line + [NL] && Reads(Drip(line + [NL]))
    ensures var d := FeedAll(s, Drip(line + [NL]));
            && d.buf == [] && |d.handled| == |s.handled| + 1 && |d.handled[|s.handled|]| == |line| % (MAX_LINE + 1)
  {
    DripFlatten(line + [NL]);
    DripSnoc(line, NL);
    DripLong(s, line);
    NewlineHandles(FeedAll(s, Drip(line)));
    assert (Drip(line) + [[NL]])[..|line|] == Drip(line);
  }

  lemma DripTwo(s: Input, line: Bytes)
    requires NoNl(line) && |line| > MAX_LINE && s.buf == []
    ensures var b := line + [NL];
            var two := Drip(line[..MAX_LINE]) + [b[MAX_LINE..MAX_LINE + 2]] + Drip(b[MAX_LINE + 2..]);
            && Flatten(two) == b && Reads(two)
            && FeedAll(s, two).buf == [] && |FeedAll(s, two).handled| == |s.handled| + 1
            && |FeedAll(s, two).handled[|s.handled|]|
               == if |line| == MAX_LINE + 1 then |line| else (|line| - MAX_LINE - 2) % (MAX_LINE + 1)
  {
    var b := line + [NL];
    var (head, pair, rest) := (line[..MAX_LINE], b[MAX_LINE..MAX_LINE + 2], b[MAX_LINE + 2..]);
    hide Flatten, FeedAll, Feed, Reads, CompleteLines, Tail, Drip;
    Pieces(line);
    ThreeParts(s, b, head, pair, rest);
    HeadFills(s, head);
    RestHandled(FeedAll(s, Drip(head)), line);
  }

  lemma Pieces(line: Bytes)
    requires |line| > MAX_LINE
    ensures var b := line + [NL];
            && b == line[..MAX_LINE] + b[MAX_LINE..MAX_LINE + 2] + b[MAX_LINE + 2..]
            && (if |line| == MAX_LINE + 1 then
                  b[MAX_LINE..MAX_LINE + 2] == [line[MAX_LINE]] + [NL] && b[MAX_LINE + 2..] == []
                else
                  b[MAX_LINE..MAX_LINE + 2] == line[MAX_LINE..MAX_LINE + 2]
                  && b[MAX_LINE + 2..] == line[MAX_LINE + 2..] + [NL])
  {
  }

  lemma RestHandled(m: Input, line: Bytes)
    requires NoNl(m.buf) && |m.buf| == MAX_LINE && NoNl(line) && |line| > MAX_LINE
    ensures var b := line + [NL];
            var d := FeedAll(Feed(m, b[MAX_LINE..MAX_LINE + 2]), Drip(b[MAX_LINE + 2..]));
            && d.buf == [] && |d.handled| == |m.handled| + 1
            && |d.handled[|m.handled|]|
               == if |line| == MAX_LINE + 1 then |line| else (|line| - MAX_LINE - 2) % (MAX_LINE + 1)
  {
    hide Flatten, FeedAll, Feed, Reads, CompleteLines, Tail, Drip;
    Pieces(line);
    var pair := (line + [NL])[MAX_LINE..MAX_LINE + 2];
    if |line| == MAX_LINE + 1 {
      WholeLine(m, line[MAX_LINE]);
      NothingMore(Feed(m, pair));
    } else {
      TooLong(m, pair);
      DripOne(Feed(m, pair), line[MAX_LINE + 2..]);
    }
  }

  lemma NothingMore(s: Input)
    ensures FeedAll(s, Drip([])) == s
  {
  }

  lemma TooLong(m: Input, pair: Bytes)
    requires NoNl(m.buf) && |m.buf| == MAX_LINE && NoNl(pair) && |pair| == 2
    ensures Feed(m, pair) == Input([], m.handled, m.discards + 1)
  {
    NoNlSplit(m.buf + pair);
  }

  lemma ThreeParts(s: Input, b: Bytes, head: Bytes, pair: Bytes, rest: Bytes)
    requires b == head + pair + rest && |pair| == 2
    ensures var two := Drip(head) + [pair] + Drip(rest);
            && Flatten(two) == b && Reads(two)
            && FeedAll(s, two) == FeedAll(Feed(FeedAll(s, Drip(head)), pair), Drip(rest))
  {
    hide Flatten, FeedAll, Feed, Drip, Reads;
    DripFlatten(head);
    DripFlatten(rest);
    FlattenAppend(Drip(head), [pair]);
    FlattenAppend(Drip(head) + [pair], Drip(rest));
    FlattenOne(pair);
    FeedAllSnoc(s, Drip(head), pair);
    FeedAllAppend(s, Drip(head) + [pair], Drip(rest));
    ReadsAppend(Drip(head), [pair]);
    ReadsAppend(Drip(head) + [pair], Drip(rest));
  }

  lemma FlattenOne(c: Bytes)
    ensures Flatten([c]) == c && (1 <= |c| <= READ_CHUNK ==> Reads([c]))
  {
    assert [c][..0] == [];
  }

  lemma ReadsAppend(a: seq<Bytes>, b: seq<Bytes>)
    requires Reads(a) && Reads(b)
    ensures Reads(a + b)
  {
  }

  lemma HeadFills(s: Input, head: Bytes)
    requires NoNl(head) && |head| == MAX_LINE && s.buf == []
    ensures var m := FeedAll(s, Drip(head)); NoNl(m.buf) && |m.buf| == MAX_LINE && m.handled == s.handled
  {
    DripLong(s, head);
  }

  lemma WholeLine(m: Input, x: bv8)
    requires NoNl(m.buf) && |m.buf| == MAX_LINE && x != NL
    ensures var d := Feed(m, [x] + [NL]);
            d.buf == [] && |d.handled| == |m.handled| + 1 && |d.handled[|m.handled|]| == MAX_LINE + 1
  {
    var t := m.buf + ([x] + [NL]);
    FirstNlIs(t, MAX_LINE + 1);
    assert t[MAX_LINE + 2..] == [];
    NoNlSplit([]);
  }

  /** Two ways of reading a stream hand the same lines to the handler. */
  ghost predicate SameHandled(a: seq<Bytes>, b: seq<Bytes>) {
    FeedAll(EMPTY, a).handled == FeedAll(EMPTY, b).handled
  }

  /** The chunking of a stream never matters. */
  ghost predicate ChunkingFree(s: Bytes) {
    forall a, b | Reads(a) && Reads(b) && Flatten(a) == s && Flatten(b) == s :: SameHandled(a, b)
  }

  /** A stream is handled alike for every sequence of reads if and only if each of its
      complete lines fits MAX_LINE. */
  lemma ChunkingFreeIff(s: Bytes)
    ensures ChunkingFree(s) <==> AllShort(s)
  {
    if AllShort(s) {
      forall a, b | Reads(a) && Reads(b) && Flatten(a) == s && Flatten(b) == s ensures SameHandled(a, b) {
        FramingExact(a);
        FramingExact(b);
      }
    } else {
      var a, b := DifferentReads(s);
      assert !SameHandled(a, b);
    }
  }

  /** Some line of a stream is too long: where the first such line begins and ends. */
  lemma {:induction false} FirstLong(s: Bytes) returns (p: nat, q: nat)
    requires !AllShort(s)
    ensures p + MAX_LINE < q < |s| && s[q] == NL && NoNl(s[p..q]) && AllShort(s[..p]) && Tail(s[..p]) == []
    decreases |s|
  {
    hide CompleteLines, Tail, FirstNl;
    var i := FirstNl(s);
    if i == |s| { NoNlSplit(s); }
    LinesStep(s, i);
    if i > MAX_LINE {
      p, q := 0, i;
      assert s[..0] == [];
      NoNlSplit([]);
    } else {
      var t := s[i + 1..];
      LongLater(s, i);
      hide AllShort;
      var p1, q1 := FirstLong(t);
      p, q := p1 + i + 1, q1 + i + 1;
      assert s[p..q] == t[p1..q1] && s[q] == t[q1];
      assert s[i + 1..p] == t[..p1];
      assert s[..p][i + 1..] == t[..p1];
      LineFirst(s[..p], i);
    }
  }

  lemma LongLater(s: Bytes, i: nat)
    requires !AllShort(s) && i < |s| && i <= MAX_LINE && CompleteLines(s) == [s[..i]] + CompleteLines(s[i + 1..])
    ensures !AllShort(s[i + 1..])
  {
    var k :| 0 <= k < |CompleteLines(s)| && |CompleteLines(s)[k]| > MAX_LINE;
    assert CompleteLines(s[i + 1..])[k - 1] == CompleteLines(s)[k];
  }

  lemma LineFirst(u: Bytes, i: nat)
    requires i < |u| && i <= MAX_LINE && u[i] == NL && (forall k | 0 <= k < i :: u[k] != NL)
    requires AllShort(u[i + 1..])
    ensures AllShort(u) && Tail(u) == Tail(u[i + 1..])
  {
    LinesStep(u, i);
    hide CompleteLines, Tail;
    forall k | 0 <= k < |CompleteLines(u)| ensures |CompleteLines(u)[k]| <= MAX_LINE {
      if k > 0 { assert CompleteLines(u)[k] == CompleteLines(u[i + 1..])[k - 1]; }
    }
  }

  lemma DifferentReads(s: Bytes) returns (a: seq<Bytes>, b: seq<Bytes>)
    requires !AllShort(s)
    ensures Reads(a) && Reads(b) && Flatten(a) == s && Flatten(b) == s && !SameHandled(a, b)
  {
    var p, q := FirstLong(s);
    var (before, line, after) := (s[..p], s[p..q], s[q + 1..]);
    var whole := line + [NL];
    assert s == before + whole + after;
    DripFlatten(before);
    FramingExact(Drip(before));
    var m := FeedAll(EMPTY, Drip(before));
    assert m.buf == [];
    hide FeedAll, Flatten, AllShort, CompleteLines, Tail, Reads, Drip;
    var one := Drip(whole);
    var two := Drip(line[..MAX_LINE]) + [whole[MAX_LINE..MAX_LINE + 2]] + Drip(whole[MAX_LINE + 2..]);
    LongLineDiffers(m, line);
    a, b := Drip(before) + one + Drip(after), Drip(before) + two + Drip(after);
    Joined(before, one, after, m);
    Joined(before, two, after, m);
    HandledGrows(FeedAll(m, one), Drip(after));
    HandledGrows(FeedAll(m, two), Drip(after));
    assert FeedAll(EMPTY, a).handled[|m.handled|] == FeedAll(m, one).handled[|m.handled|];
    assert FeedAll(EMPTY, b).handled[|m.handled|] == FeedAll(m, two).handled[|m.handled|];
  }

  lemma Joined(before: Bytes, mid: seq<Bytes>, after: Bytes, m: Input)
    requires m == FeedAll(EMPTY, Drip(before)) && Reads(mid)
    ensures var c := Drip(before) + mid + Drip(after);
            && Reads(c) && Flatten(c) == before + Flatten(mid) + after
            && FeedAll(EMPTY, c) == FeedAll(FeedAll(m, mid), Drip(after))
  {
    DripFlatten(before);
    DripFlatten(after);
    FeedAllAppend(EMPTY, Drip(before), mid);
    FeedAllAppend(EMPTY, Drip(before) + mid, Drip(after));
    FlattenAppend(Drip(before), mid);
    FlattenAppend(Drip(before) + mid, Drip(after));
    hide FeedAll, Flatten, Drip;
  }

  // ---------- output ----------

  /** What one write call may answer. */
  datatype WriteResult = Wrote(n: nat) | Interrupted | WouldBlock | Nothing | Fatal

  function Concat(q: seq<Bytes>): Bytes {
    if q == [] then [] else q[0] + Concat(q[1..])
  }

  lemma {:induction false} ConcatSnoc(q: seq<Bytes>, b: Bytes)
    ensures Concat(q + [b]) == Concat(q) + b
  {
    if q == [] {
      assert q + [b] == [b] && [b][1..] == [];
    } else {
      assert (q + [b])[1..] == q[1..] + [b];
      ConcatSnoc(q[1..], b);
    }
  }

  /** How many of `room` bytes the write calls take. What is answered when the list is
      over, or nothing is left to write, does not matter. */
  function Taken(room: nat, results: seq<WriteResult>): (n: nat)
    ensures n <= room
  {
    if room == 0 || results == [] then 0
    else
      match results[0]
      case Wrote(k) =>
        var n := if k > room then room else k;
        if n == 0 then 0 else n + Taken(room - n, results[1..])
      case Interrupted => Taken(room, results[1..])
      case _ => 0
  }

  /** One of those calls fails for good. */
  predicate Breaks(room: nat, results: seq<WriteResult>) {
    && room > 0 && results != []
    && match results[0]
       case Wrote(k) => 0 < k <= room && Breaks(room - k, results[1..])
       case Interrupted => Breaks(room, results[1..])
       case Fatal => true
       case _ => false
  }

  /** What one answer decides, and what is left to the ones after it. */
  lemma OneAnswer(room: nat, results: seq<WriteResult>, i: nat)
    requires room > 0 && i < |results|
    ensures match results[i]
            case Wrote(k) =>
              var n := if k > room then room else k;
              && Taken(room, results[i..]) == (if n == 0 then 0 else n + Taken(room - n, results[i + 1..]))
              && Breaks(room, results[i..]) == (n > 0 && Breaks(room - n, results[i + 1..]))
            case Interrupted =>
              && Taken(room, results[i..]) == Taken(room, results[i + 1..])
              && Breaks(room, results[i..]) == Breaks(room, results[i + 1..])
            case _ => Taken(room, results[i..]) == 0 && Breaks(room, results[i..]) == results[i].Fatal?
  {
    assert results[i..][0] == results[i] && results[i..][1..] == results[i + 1..];
  }

  lemma NoAnswer(room: nat, results: seq<WriteResult>)
    ensures results[0..] == results
    ensures room == 0 || results == [] ==> Taken(room, results) == 0 && !Breaks(room, results)
  {
  }

  lemma Extend(data: Bytes, n: nat, k: nat)
    requires n + k <= |data|
    ensures data[..n + k] == data[..n] + data[n..n + k]
  {
  }

  predicate NoFatal(results: seq<WriteResult>) { forall i | 0 <= i < |results| :: !results[i].Fatal? }

  lemma {:induction false} NeverBreaks(room: nat, results: seq<WriteResult>)
    requires NoFatal(results)
    ensures !Breaks(room, results)
  {
    if room > 0 && results != [] {
      match results[0]
      case Wrote(k) => if k <= room { NeverBreaks(room - k, results[1..]); }
      case Interrupted => NeverBreaks(room, results[1..]);
      case _ =>
    }
  }

  /** What the socket did not take, to be queued. */
  function Remainder(data: Bytes, results: seq<WriteResult>): seq<Bytes> {
    var n := Taken(|data|, results);
    if n == |data| then [] else [data[n..]]
  }

  /** The answers to the writes of item `i`. */
  function AnswersAt(results: seq<seq<WriteResult>>, i: nat): seq<WriteResult> {
    if i < |results| then results[i] else []
  }

  function LeftOf(results: seq<seq<WriteResult>>, i: nat): seq<seq<WriteResult>> {
    if i < |results| then results[i..] else []
  }

  lemma ConcatHead(q: seq<Bytes>)
    requires q != []
    ensures Concat(q) == q[0] + Concat(q[1..])
  {
  }

  function After(out: Bytes, f: FlushResult): FlushResult { f.(out := out + f.out) }

  datatype FlushResult = FlushResult(queue: seq<Bytes>, out: Bytes, ok: bool)

  /** Write out queued items in order until one is cut short or fails. */
  function Flushed(q: seq<Bytes>, results: seq<seq<WriteResult>>): FlushResult {
    if q == [] then FlushResult([], [], true)
    else
      var r := if results == [] then [] else results[0];
      var n := Taken(|q[0]|, r);
      if Breaks(|q[0]|, r) then FlushResult([], q[0][..n], false)
      else if n < |q[0]| then FlushResult([q[0][n..]] + q[1..], q[0][..n], true)
      else
        var f := Flushed(q[1..], if results == [] then [] else results[1..]);
        FlushResult(f.queue, q[0] + f.out, f.ok)
  }

  lemma FlushStep(q: seq<Bytes>, results: seq<seq<WriteResult>>, i: nat)
    requires q != []
    ensures var n := Taken(|q[0]|, AnswersAt(results, i));
            Flushed(q, LeftOf(results, i)) ==
              if Breaks(|q[0]|, AnswersAt(results, i)) then FlushResult([], q[0][..n], false)
              else if n < |q[0]| then FlushResult([q[0][n..]] + q[1..], q[0][..n], true)
              else After(q[0], Flushed(q[1..], LeftOf(results, i + 1)))
  {
    var left := LeftOf(results, i);
    assert (if left == [] then [] else left[1..]) == LeftOf(results, i + 1);
  }

  /** One turn, with `out` already written. */
  lemma FlushTurn(out: Bytes, q: seq<Bytes>, results: seq<seq<WriteResult>>, i: nat)
    requires q != []
    ensures var n := Taken(|q[0]|, AnswersAt(results, i));
            After(out, Flushed(q, LeftOf(results, i))) ==
              if Breaks(|q[0]|, AnswersAt(results, i)) then FlushResult([], out + q[0][..n], false)
              else if n < |q[0]| then FlushResult([q[0][n..]] + q[1..], out + q[0][..n], true)
              else After(out + q[0][..n], Flushed(q[1..], LeftOf(results, i + 1)))
  {
    hide Flushed, Taken, Breaks, LeftOf, AnswersAt;
    FlushStep(q, results, i);
    Regroup(out, q[0], Flushed(q[1..], LeftOf(results, i + 1)).out);
    assert q[0][..|q[0]|] == q[0];
  }

  lemma FlushStart(q: seq<Bytes>, results: seq<seq<WriteResult>>)
    ensures After([], Flushed(q, LeftOf(results, 0))) == Flushed(q, results)
  {
    assert LeftOf(results, 0) == results;
    assert [] + Flushed(q, results).out == Flushed(q, results).out;
  }

  lemma FlushEnd(out: Bytes, results: seq<seq<WriteResult>>)
    ensures After(out, Flushed([], results)) == FlushResult([], out, true)
  {
    assert out + [] == out;
  }

  /** Without a fatal answer a flush keeps the client, loses and reorders nothing, and ends
      with nothing queued or at an item that the socket did not take in full. */
  lemma {:induction false} FlushedMeans(q: seq<Bytes>, results: seq<seq<WriteResult>>)
    requires forall i | 0 <= i < |results| :: NoFatal(results[i])
    ensures var f := Flushed(q, results);
            && f.ok && f.out + Concat(f.queue) == Concat(q)
            && (f.queue == [] || exists i | 0 <= i < |q| :: CutShort(q, results, i) && f.queue == LeftAt(q, results, i))
  {
    if q != [] {
      var r := if results == [] then [] else results[0];
      var rest := if results == [] then [] else results[1..];
      NeverBreaks(|q[0]|, r);
      FlushedMeans(q[1..], rest);
      var n := Taken(|q[0]|, r);
      var f := Flushed(q, results);
      if n < |q[0]| {
        assert CutShort(q, results, 0) && f.queue == LeftAt(q, results, 0);
        CutConcat(q, n);
      } else {
        var g := Flushed(q[1..], rest);
        Regroup(q[0], g.out, Concat(g.queue));
        if g.queue != [] {
          var i :| 0 <= i < |q[1..]| && CutShort(q[1..], rest, i) && g.queue == LeftAt(q[1..], rest, i);
          assert CutShort(q, results, i + 1) && LeftAt(q, results, i + 1) == g.queue;
        }
      }
    }
  }

  predicate CutShort(q: seq<Bytes>, results: seq<seq<WriteResult>>, i: nat)
    requires i < |q|
  {
    Taken(|q[i]|, AnswersAt(results, i)) < |q[i]|
  }

  function LeftAt(q: seq<Bytes>, results: seq<seq<WriteResult>>, i: nat): seq<Bytes>
    requires i < |q|
  {
    [q[i][Taken(|q[i]|, AnswersAt(results, i))..]] + q[i + 1..]
  }

  lemma CutConcat(q: seq<Bytes>, n: nat)
    requires q != [] && n <= |q[0]|
    ensures q[0][..n] + Concat([q[0][n..]] + q[1..]) == Concat(q)
  {
    assert ([q[0][n..]] + q[1..])[1..] == q[1..];
    Regroup(q[0][..n], q[0][n..], Concat(q[1..]));
    assert q[0][..n] + q[0][n..] == q[0];
  }

  class Client {
    var input: Bytes
    var handled: seq<Bytes>
    var discards: nat
    var queue: seq<Bytes>
    var alive: bool
    /** The bytes the socket took, and those ever passed to Send. */
    ghost var written: Bytes
    ghost var sent: Bytes

    /** Nothing is lost, repeated or reordered. */
    ghost predicate Valid()
      reads this
    {
      && written <= sent
      && (alive ==> written + Concat(queue) == sent)
    }

    ghost function Abs(): Input
      reads this
    {
      Input(input, handled, discards)
    }

    constructor ()
      ensures Valid() && alive && queue == [] && sent == [] && Abs() == EMPTY
    {
      input, handled, discards, queue, alive, written, sent := [], [], 0, [], true, [], [];
    }

    /** Bytes have arrived: hand over every complete line, drop an over-long buffer. */
    method ProcessInput(chunk: Bytes)
      requires alive
      modifies this`input, this`handled, this`discards
      ensures Abs() == Feed(old(Abs()), chunk)
    {
      input := input + chunk;
      ghost var (all, was) := (input, handled);
      var nl := FirstNl(input);
      hide CompleteLines, Tail, FirstNl;
      while nl < |input|
        invariant nl == FirstNl(input) && discards == old(discards)
        invariant handled + CompleteLines(input) == was + CompleteLines(all) && Tail(input) == Tail(all)
        decreases |input|
      {
        LinesStep(input, nl);
        Regroup(handled, [input[..nl]], CompleteLines(input[nl + 1..]));
        handled := handled + [input[..nl]];
        input := input[nl + 1..];
        nl := FirstNl(input);
      }
      NoNlSplit(input);
      if |input| > MAX_LINE { discards, input := discards + 1, []; }
    }

    /** Writes until all is out, the socket takes no more, or an error. */
    method TryWrite(data: Bytes, results: seq<WriteResult>) returns (n: nat, ok: bool)
      modifies this`written
      ensures n == Taken(|data|, results) && ok == !Breaks(|data|, results)
      ensures written == old(written) + data[..n]
    {
      hide Taken, Breaks;
      n, ok := 0, true;
      var i := 0;
      NoAnswer(|data|, results);
      while n < |data| && i < |results|
        invariant 0 <= i <= |results| && n <= |data| && written == old(written) + data[..n]
        invariant Taken(|data|, results) == n + Taken(|data| - n, results[i..])
        invariant Breaks(|data|, results) == Breaks(|data| - n, results[i..])
        invariant n == |data| || i == |results| ==>
                    Taken(|data| - n, results[i..]) == 0 && !Breaks(|data| - n, results[i..])
        decreases |results| - i
      {
        OneAnswer(|data| - n, results, i);
        match results[i] {
          case Wrote(k) =>
            var k' := if k > |data| - n then |data| - n else k;
            if k' == 0 { return; }
            Extend(data, n, k');
            written := written + data[n..n + k'];
            n := n + k';
          case Interrupted =>
          case WouldBlock => return;
          case Nothing => return;
          case Fatal =>
            ok := false;
            return;
        }
        i := i + 1;
        NoAnswer(|data| - n, results[i..]);
      }
    }

    method Close()
      modifies this`alive, this`queue
      ensures !alive
    {
      alive, queue := false, [];
    }

    /** Text goes straight out when nothing is queued, and what the socket does not take is
        queued behind the rest; only an error on the way out closes the client. */
    method Send(text: Bytes, results: seq<WriteResult>) returns (ok: bool)
      requires Valid() && alive
      modifies this
      ensures Valid() && ok == alive && sent == old(sent) + text && Abs() == old(Abs())
      ensures alive <==> old(queue) != [] || !Breaks(|text|, results)
      ensures written == old(written) + if old(queue) == [] then text[..Taken(|text|, results)] else []
      ensures alive ==> queue == old(queue) + if old(queue) != [] then [text] else Remainder(text, results)
    {
      var rest := text;
      sent := sent + text;
      if queue == [] {
        var n, fine := TryWrite(text, results);
        assert text == text[..n] + text[n..];
        assert old(sent) == old(written);
        if !fine {
          Close();
          return false;
        }
        if n == |text| { return true; }
        rest := text[n..];
      }
      ConcatSnoc(queue, rest);
      queue := queue + [rest];
      ok := true;
    }

    /** One turn of the flush: pop the head, write it, and put back what was not taken. */
    method FlushHead(answers: seq<WriteResult>) returns (short: bool, ok: bool)
      requires Valid() && alive && queue != []
      modifies this`queue, this`written, this`alive
      ensures Valid() && ok == alive == !Breaks(|old(queue)[0]|, answers)
      ensures var (head, n) := (old(queue)[0], Taken(|old(queue)[0]|, answers));
              && written == old(written) + head[..n]
              && (ok ==> short == (n < |head|)
                         && queue == if short then [head[n..]] + old(queue)[1..] else old(queue)[1..])
    {
      hide Taken, Breaks, Concat;
      var head := queue[0];
      CutConcat(queue, Taken(|head|, answers));
      ConcatHead(queue);
      ghost var n0 := Taken(|head|, answers);
      Regroup(written, head[..n0], Concat([head[n0..]] + queue[1..]));
      Regroup(written, head, Concat(queue[1..]));
      queue := queue[1..];
      var n, fine := TryWrite(head, answers);
      short, ok := n < |head|, fine;
      if !fine {
        Close();
      } else if short {
        queue := [head[n..]] + queue;
      } else {
        assert head[..n] == head;
      }
    }

    method Flush(results: seq<seq<WriteResult>>) returns (ok: bool)
      requires Valid() && alive
      modifies this
      ensures Valid() && ok == alive && sent == old(sent) && Abs() == old(Abs())
      ensures var f := Flushed(old(queue), results);
              ok == f.ok && written == old(written) + f.out && (ok ==> queue == f.queue)
    {
      hide Flushed, Taken, Breaks, Concat, Valid, After, AnswersAt, LeftOf;
      FlushStart(queue, results);
      var i := 0;
      ghost var f := Flushed(queue, results);
      ghost var out := [];
      while queue != []
        invariant Valid() && alive && sent == old(sent) && Abs() == old(Abs())
        invariant written == old(written) + out
        invariant f == After(out, Flushed(queue, LeftOf(results, i)))
        decreases |queue|
      {
        var answers := AnswersAt(results, i);
        FlushTurn(out, queue, results, i);
        out := out + queue[0][..Taken(|queue[0]|, answers)];
        var short, fine := FlushHead(answers);
        i := i + 1;
        if !fine { return false; }
        if short { return true; }
      }
      FlushEnd(out, LeftOf(results, i));
      ok := true;
    }
  }
}
