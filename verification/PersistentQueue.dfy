/**
 The file-backed queue: one JSON object per line, appended in batches, consumed from the
 front. The file is modelled character by character, so a torn append can cut anywhere.
 */
module PersistentQueues {
  import opened Options

  /** json.dumps and json.loads. */
  datatype Codec<!T> = Codec(enc: T -> string, dec: string -> Option<T>)

  /** str.isspace() */
  predicate IsSpace(ch: char) {
    || '\t' <= ch <= '\r' || '\U{1c}' <= ch <= ' ' || '\U{2000}' <= ch <= '\U{200a}'
    || ch in ['\U{85}', '\U{a0}', '\U{1680}', '\U{2028}', '\U{2029}', '\U{202f}', '\U{205f}', '\U{3000}']
  }

  /** Nothing but what strip() removes. */
  predicate Blank(line: string) { forall k :: 0 <= k < |line| ==> IsSpace(line[k]) }

  /**
   What the queue relies on: a record is one line, reads back as itself, no part of it reads
   as a record, neither does a record appended onto a piece of another one, nor a blank line.
   */
  ghost predicate Json<T(!new)>(c: Codec<T>) {
    && (forall x :: '\n' !in c.enc(x) && "{" <= c.enc(x) && c.dec(c.enc(x)) == Some(x))
    && (forall x, n :: 0 <= n < |c.enc(x)| ==> c.dec(c.enc(x)[..n]) == None)
    && (forall x, y, n :: 0 < n <= |c.enc(x)| ==> c.dec(c.enc(x)[..n] + c.enc(y)) == None)
    && (forall line :: Blank(line) ==> c.dec(line) == None)
  }

  function Unary(n: nat): string { "{" + seq(n, _ => 'a') + "}" }

  function FromUnary(s: string): Option<nat> {
    if |s| >= 2 && s[0] == '{' && s[|s| - 1] == '}' && forall k :: 0 < k < |s| - 1 ==> s[k] == 'a' then Some(|s| - 2)
    else None
  }

  /** What Json asks of the encoding can be had: any self-delimiting one-line format will do. */
  lemma UnaryIsJson()
    ensures Json(Codec(Unary, FromUnary))
  {
    hide Unary, FromUnary;
    forall x: nat ensures '\n' !in Unary(x) && "{" <= Unary(x) && FromUnary(Unary(x)) == Some(x) { UnaryReadsBack(x); }
    forall x: nat, n | 0 <= n < |Unary(x)| ensures FromUnary(Unary(x)[..n]) == None { UnaryPiece(x, n); }
    forall x: nat, y: nat, n | 0 < n <= |Unary(x)| ensures FromUnary(Unary(x)[..n] + Unary(y)) == None {
      UnaryGlued(x, y, n);
    }
    forall line | Blank(line) ensures FromUnary(line) == None { UnaryNotBlank(line); }
  }

  lemma UnaryNotBlank(line: string)
    requires Blank(line)
    ensures FromUnary(line) == None
  {}

  lemma UnaryReadsBack(x: nat)
    ensures '\n' !in Unary(x) && "{" <= Unary(x) && FromUnary(Unary(x)) == Some(x)
  {}

  lemma UnaryPiece(x: nat, n: nat)
    requires n < |Unary(x)|
    ensures FromUnary(Unary(x)[..n]) == None
  {}

  lemma UnaryGlued(x: nat, y: nat, n: nat)
    requires 0 < n <= |Unary(x)|
    ensures FromUnary(Unary(x)[..n] + Unary(y)) == None
  {
    var s := Unary(x)[..n] + Unary(y);
    assert s[n] == '{' && 0 < n < |s| - 1;
  }

  // ---- Lines -----------------------------------------------------------------------------

  /** Characters before the first newline. */
  function Cut(s: string): (n: nat)
    ensures n <= |s| && '\n' !in s[..n] && (n < |s| ==> s[n] == '\n')
  {
    if s == "" || s[0] == '\n' then 0 else 1 + Cut(s[1..])
  }

  /** readline() without its newline. */
  function FirstLine(s: string): string { s[..Cut(s)] }

  /** The file without its front line. */
  function Rest(s: string): string { if Cut(s) < |s| then s[Cut(s) + 1..] else "" }

  lemma CutAt(s: string, n: nat)
    requires n <= |s| && '\n' !in s[..n] && (n < |s| ==> s[n] == '\n')
    ensures Cut(s) == n
  {
    assert forall k :: 0 <= k < n ==> s[k] == s[..n][k];
    assert forall k :: 0 <= k < Cut(s) ==> s[k] == s[..Cut(s)][k];
  }

  /** The records a reader will get, in order: malformed lines are skipped. */
  function Records<T>(c: Codec<T>, s: string): seq<T>
    decreases |s|
  {
    if s == "" then [] else
      match c.dec(FirstLine(s))
      case Some(x) => [x] + Records(c, Rest(s))
      case None => Records(c, Rest(s))
  }

  /** _count_lines: malformed lines count too. */
  function CountLines(s: string): nat
    decreases |s|
  {
    if s == "" then 0 else (if Blank(FirstLine(s)) then 0 else 1) + CountLines(Rest(s))
  }

  /** Every line is terminated. */
  predicate Ended(s: string) { s == "" || s[|s| - 1] == '\n' }

  function Lines<T>(c: Codec<T>, xs: seq<T>): string {
    if xs == [] then "" else c.enc(xs[0]) + "\n" + Lines(c, xs[1..])
  }

  lemma NothingToRead<T>(c: Codec<T>)
    ensures Records(c, "") == []
  {}

  lemma FirstLineIsFront(s: string)
    requires s != ""
    ensures FirstLine(s) <= s && '\n' !in FirstLine(s) && |Rest(s)| < |s|
    ensures Ended(s) ==> FirstLine(s) + "\n" <= s && Ended(Rest(s))
  {
    var n := Cut(s);
    assert forall k :: 0 <= k < n ==> s[k] == s[..n][k];
    assert Ended(s) ==> n < |s|;
    assert n < |s| ==> s[..n] + "\n" == s[..n + 1];
  }

  lemma CutOfEnded(a: string, b: string)
    requires Ended(a) && a != ""
    ensures FirstLine(a + b) == FirstLine(a) && Rest(a + b) == Rest(a) + b && Ended(Rest(a)) && |Rest(a)| < |a|
  {
    var n := Cut(a);
    assert forall k :: 0 <= k < n ==> a[k] == a[..n][k];
    assert n < |a|;
    assert (a + b)[..n] == a[..n] && (a + b)[n + 1..] == a[n + 1..] + b;
    CutAt(a + b, n);
  }

  lemma RecordsStep<T>(c: Codec<T>, s: string)
    requires s != ""
    ensures var x := c.dec(FirstLine(s));
            Records(c, s) == (if x.Some? then [x.value] else []) + Records(c, Rest(s))
  {}

  /** Reading a terminated file and then more text is reading the one and then the other. */
  lemma {:induction false} RecordsSplit<T>(c: Codec<T>, a: string, b: string)
    requires Ended(a)
    ensures Records(c, a + b) == Records(c, a) + Records(c, b)
    decreases |a|
  {
    hide Cut, FirstLine, Rest, Ended;
    if a == "" {
      assert a + b == b;
    } else {
      CutOfEnded(a, b);
      RecordsSplit(c, Rest(a), b);
      RecordsStep(c, a);
      RecordsStep(c, a + b);
    }
  }

  lemma {:induction false} RecordsOfLines<T(!new)>(c: Codec<T>, xs: seq<T>)
    requires Json(c)
    ensures Records(c, Lines(c, xs)) == xs && Ended(Lines(c, xs))
  {
    hide Records, Cut, FirstLine, Rest, Ended;
    if xs == [] {
      NothingToRead(c);
      assert Ended("") by { EmptyEnds(); }
    } else {
      FrontOfLines(c, xs);
      RecordsStep(c, Lines(c, xs));
      RecordsOfLines(c, xs[1..]);
    }
  }

  lemma EmptyEnds()
    ensures Ended("")
  {}

  lemma FrontOfLines<T(!new)>(c: Codec<T>, xs: seq<T>)
    requires Json(c) && xs != []
    ensures var s := Lines(c, xs);
            s != "" && FirstLine(s) == c.enc(xs[0]) && Rest(s) == Lines(c, xs[1..]) && (Ended(Rest(s)) ==> Ended(s))
  {
    var line := c.enc(xs[0]);
    var s := line + "\n" + Lines(c, xs[1..]);
    assert s[..|line|] == line && s[|line| + 1..] == Lines(c, xs[1..]);
    CutAt(s, |line|);
  }

  /** Over whole batches the count at start-up is the number of items. */
  lemma {:induction false} CountOfLines<T(!new)>(c: Codec<T>, xs: seq<T>)
    requires Json(c)
    ensures CountLines(Lines(c, xs)) == |xs|
  {
    if xs != [] {
      var line := c.enc(xs[0]);
      var s := line + "\n" + Lines(c, xs[1..]);
      assert s[..|line|] == line && s[|line| + 1..] == Lines(c, xs[1..]);
      CutAt(s, |line|);
      assert line[0] == '{' && !Blank(line);
      CountOfLines(c, xs[1..]);
    }
  }

  /** A line that the count at start-up includes although no reader will get it. */
  predicate Malformed<T>(c: Codec<T>, line: string) { !Blank(line) && c.dec(line).None? }

  function FileLines(s: string): seq<string>
    decreases |s|
  {
    if s == "" then [] else [FirstLine(s)] + FileLines(Rest(s))
  }

  function MalformedLines<T>(c: Codec<T>, s: string): nat
    decreases |s|
  {
    if s == "" then 0 else (if Malformed(c, FirstLine(s)) then 1 else 0) + MalformedLines(c, Rest(s))
  }

  /** Over any file the count exceeds the number of items by the lines that are malformed. */
  lemma {:induction false} CountExceeds<T(!new)>(c: Codec<T>, s: string)
    requires Json(c)
    ensures CountLines(s) == |Records(c, s)| + MalformedLines(c, s)
    decreases |s|
  {
    hide Cut, FirstLine, Rest;
    if s != "" {
      FirstLineIsFront(s);
      CountExceeds(c, Rest(s));
      RecordsStep(c, s);
    }
  }

  lemma {:induction false} NoneMalformed<T>(c: Codec<T>, s: string)
    ensures MalformedLines(c, s) == 0 <==> forall line :: line in FileLines(s) ==> !Malformed(c, line)
    decreases |s|
  {
    hide Cut, FirstLine, Rest, Malformed;
    if s != "" {
      FirstLineIsFront(s);
      NoneMalformed(c, Rest(s));
      assert FirstLine(s) in FileLines(s);
      assert forall line :: line in FileLines(Rest(s)) ==> line in FileLines(s);
    }
  }

  /** The count at start-up is the number of items exactly when every line is blank or a record. */
  lemma CountIsRightExactlyWhen<T(!new)>(c: Codec<T>, s: string)
    requires Json(c)
    ensures CountLines(s) == |Records(c, s)| <==>
            forall line :: line in FileLines(s) ==> Blank(line) || c.dec(line).Some?
  {
    hide CountLines, Records, FileLines, MalformedLines, Json, Blank;
    CountExceeds(c, s);
    NoneMalformed(c, s);
  }

  /** A single torn line, cut short after its first character: one is counted, none is there. */
  lemma TornLineIsCounted<T(!new)>(c: Codec<T>)
    requires Json(c) && c.dec("{") == None
    ensures CountLines("{\n") == 1 && Records(c, "{\n") == []
  {
    CutAt("{\n", 1);
    assert "{\n"[2..] == "" && "{\n"[..1] == "{";
    assert "{"[0] == '{' && !Blank("{");
  }

  // ---- Torn appends --------------------------------------------------------------------------

  /** m records of the batch survive a cut at k: every line wholly before the cut is among them. */
  ghost predicate Survive<T>(c: Codec<T>, xs: seq<T>, k: nat, m: nat) {
    m <= |xs| && forall n: nat :: n <= |xs| && |Lines(c, xs[..n])| <= k ==> n <= m
  }

  /** An append that was not cut loses nothing. */
  lemma UncutSurvives<T>(c: Codec<T>, xs: seq<T>, m: nat)
    requires Survive(c, xs, |Lines(c, xs)|, m)
    ensures m == |xs|
  {
    assert xs[..|xs|] == xs;
  }

  lemma MoreSurvive<T>(c: Codec<T>, xs: seq<T>, k: nat, m: nat)
    requires Survive(c, xs, k, m) && m < |xs|
    ensures Survive(c, xs, k, m + 1)
  {}

  lemma LinesOfPrefix<T>(c: Codec<T>, xs: seq<T>, n: nat)
    requires 0 < n <= |xs|
    ensures |Lines(c, xs[..n])| == |c.enc(xs[0])| + 1 + |Lines(c, xs[1..][..n - 1])|
  {
    assert xs[..n][0] == xs[0] && xs[..n][1..] == xs[1..][..n - 1];
  }

  lemma OneLine<T(!new)>(c: Codec<T>, x: T)
    requires Json(c)
    ensures '\n' !in c.enc(x) && c.enc(x) != ""
  {}

  /** A cut batch is some of its lines and a piece of the next. */
  lemma {:induction false} CutBatch<T(!new)>(c: Codec<T>, xs: seq<T>, k: nat) returns (m: nat, piece: string)
    requires Json(c) && k <= |Lines(c, xs)|
    ensures m <= |xs| && Lines(c, xs)[..k] == Lines(c, xs[..m]) + piece && Survive(c, xs, k, m)
    ensures piece == "" || (m < |xs| && |piece| <= |c.enc(xs[m])| && piece == c.enc(xs[m])[..|piece|])
    ensures piece == "" <==> Ended(Lines(c, xs)[..k])
    decreases xs
  {
    hide Json;
    if xs == [] {
      m, piece := 0, "";
    } else {
      OneLine(c, xs[0]);
      var line, rest := c.enc(xs[0]), Lines(c, xs[1..]);
      assert Lines(c, xs) == line + "\n" + rest;
      if k <= |line| {
        m, piece := 0, line[..k];
        assert xs[..0] == [] && Lines(c, xs)[..k] == piece;
        forall n: nat | 0 < n <= |xs| ensures |Lines(c, xs[..n])| > k { LinesOfPrefix(c, xs, n); }
        assert k > 0 ==> piece[k - 1] == line[k - 1];
      } else {
        m, piece := CutBatch(c, xs[1..], k - |line| - 1);
        assert Lines(c, xs)[..k] == line + "\n" + rest[..k - |line| - 1];
        assert xs[..m + 1][0] == xs[0] && xs[..m + 1][1..] == xs[1..][..m];
        assert Lines(c, xs[..m + 1]) == line + "\n" + Lines(c, xs[1..][..m]);
        assert Lines(c, xs)[..k] == Lines(c, xs[..m + 1]) + piece;
        forall n: nat | n <= |xs| && |Lines(c, xs[..n])| <= k ensures n <= m + 1 {
          if n > 0 { LinesOfPrefix(c, xs, n); }
        }
        m := m + 1;
      }
    }
  }

  /** A record appended onto a piece of another: both are one malformed line. */
  lemma GluedLine<T(!new)>(c: Codec<T>, x: T, n: nat, ys: seq<T>)
    requires Json(c) && 0 < n <= |c.enc(x)|
    ensures Records(c, c.enc(x)[..n] + Lines(c, ys)) ==
            if ys != [] then ys[1..] else if n == |c.enc(x)| then [x] else []
  {
    var piece := c.enc(x)[..n];
    if ys == [] {
      assert piece + "" == piece;
      CutAt(piece, n);
      assert n == |c.enc(x)| ==> piece == c.enc(x);
      assert Records(c, "") == [];
    } else {
      var line := piece + c.enc(ys[0]);
      var s := line + "\n" + Lines(c, ys[1..]);
      assert piece + Lines(c, ys) == s;
      assert s[..|line|] == line && s[|line| + 1..] == Lines(c, ys[1..]);
      CutAt(s, |line|);
      assert c.dec(line) == None;
      RecordsOfLines(c, ys[1..]);
    }
  }

  /**
   A batch put onto a torn last line is counted whole, but adds one item less, or two less when only the
   newline was missing: so much further the size estimate is then too high.
   */
  lemma GluedPut<T(!new)>(c: Codec<T>, file: string, x: T, n: nat, ys: seq<T>)
    requires Json(c) && Ended(file) && 0 < n <= |c.enc(x)| && ys != []
    ensures var torn := file + c.enc(x)[..n];
            |Records(c, torn + Lines(c, ys))| ==
            |Records(c, torn)| + |ys| - (if n == |c.enc(x)| then 2 else 1)
  {
    hide Records, Lines, Ended, Json;
    var piece := c.enc(x)[..n];
    GluedLine(c, x, n, ys);
    GluedLine(c, x, n, []);
    assert Lines(c, []) == "" by { EmptyBatch(c); }
    assert piece + "" == piece && file + piece + Lines(c, ys) == file + (piece + Lines(c, ys));
    RecordsSplit(c, file, piece);
    RecordsSplit(c, file, piece + Lines(c, ys));
  }

  /** Text appended after the last terminated line is read after it. */
  lemma RecordsAfter<T(!new)>(c: Codec<T>, file: string, xs: seq<T>, m: nat, more: string)
    requires Json(c) && Ended(file) && m <= |xs|
    ensures Records(c, file + Lines(c, xs[..m]) + more) == Records(c, file) + xs[..m] + Records(c, more)
  {
    hide Records, Lines;
    RecordsOfLines(c, xs[..m]);
    RecordsSplit(c, file, Lines(c, xs[..m]));
    RecordsSplit(c, file + Lines(c, xs[..m]), more);
  }

  /** How many of the torn batch's records survive, and what the next batch loses. */
  lemma TornSurvivors<T(!new)>(c: Codec<T>, file: string, xs: seq<T>, k: nat, ys: seq<T>) returns (m: nat)
    requires Json(c) && Ended(file) && k <= |Lines(c, xs)|
    ensures Survive(c, xs, k, m)
    ensures Records(c, file + Lines(c, xs)[..k] + Lines(c, ys))
            == Records(c, file) + xs[..m] + (if ys == [] || Ended(file + Lines(c, xs)[..k]) then ys else ys[1..])
  {
    hide Records, Lines;
    var piece;
    m, piece := CutBatch(c, xs, k);
    RecordsAfter(c, file, xs, m, piece + Lines(c, ys));
    assert file + Lines(c, xs)[..k] + Lines(c, ys) == file + Lines(c, xs[..m]) + (piece + Lines(c, ys));
    if piece == "" {
      RecordsOfLines(c, ys);
      assert piece + Lines(c, ys) == Lines(c, ys);
    } else {
      GluedLine(c, xs[m], |piece|, ys);
      assert xs[..m + 1] == xs[..m] + [xs[m]];
      MoreSurvive(c, xs, k, m);
      m := if ys == [] && |piece| == |c.enc(xs[m])| then m + 1 else m;
    }
  }

  /**
   What a torn append costs. However the append of `xs` was cut, the file then holds what it
   held and a prefix of the batch with every line written whole; once the next batch `ys` is
   appended, it has lost at most the batch from the torn line on and the one line appended onto
   the piece.
   */
  lemma TornAppend<T(!new)>(c: Codec<T>, file: string, xs: seq<T>, k: nat, ys: seq<T>)
    requires Json(c) && Ended(file) && k <= |Lines(c, xs)|
    ensures var torn := file + Lines(c, xs)[..k];
            && (exists m: nat :: Survive(c, xs, k, m) && Records(c, torn) == Records(c, file) + xs[..m])
            && (exists m: nat :: Survive(c, xs, k, m) && Records(c, torn + Lines(c, ys))
                  == Records(c, file) + xs[..m] + (if ys == [] || Ended(torn) then ys else ys[1..]))
  {
    hide Records, Lines;
    var m := TornSurvivors(c, file, xs, k, []);
    assert Lines(c, []) == "" by { EmptyBatch(c); }
    assert file + Lines(c, xs)[..k] + "" == file + Lines(c, xs)[..k];
    assert Records(c, file) + xs[..m] + [] == Records(c, file) + xs[..m];
    var n := TornSurvivors(c, file, xs, k, ys);
  }

  lemma EmptyBatch<T>(c: Codec<T>)
    ensures Lines(c, []) == ""
  {}

  // ---- The queue -----------------------------------------------------------------------------

  lemma FrontOfEnded<T>(c: Codec<T>, file: string, front: string)
    requires front + "\n" <= file && '\n' !in front && c.dec(front).Some?
    ensures Records(c, file) == [c.dec(front).value] + Records(c, Rest(file))
  {
    assert file[..|front|] == front && file[|front|] == '\n';
    CutAt(file, |front|);
  }

  /** The text of a batch. */
  method Payload<T>(c: Codec<T>, xs: seq<T>) returns (payload: string)
    ensures payload == Lines(c, xs)
  {
    payload := "";
    for k := 0 to |xs|
      invariant payload + Lines(c, xs[k..]) == Lines(c, xs)
    {
      assert xs[k..][1..] == xs[k + 1..];
      var line := c.enc(xs[k]) + "\n";
      assert payload + (line + Lines(c, xs[k + 1..])) == (payload + line) + Lines(c, xs[k + 1..]);
      payload := payload + line;
    }
    assert payload + "" == payload;
  }

  class PersistentQueue<!T(==, !new)> {
    const codec: Codec<T>
    var file: string
    var inFlight: Option<T>
    /** Approximate: a dropped malformed line is never subtracted. */
    var size: nat
    /** The line handed out with inFlight. */
    ghost var front: string

    /** The item handed out is still at the front of the file. */
    ghost predicate Valid() reads this {
      && Json(codec)
      && (inFlight.Some? ==> file != "" && front <= file && '\n' !in front && codec.dec(front) == inFlight)
    }

    /** No append was ever cut short: every line is terminated. */
    ghost predicate Sound() reads this { Ended(file) && (inFlight.Some? ==> front + "\n" <= file) }

    ghost function Contents(): seq<T> reads this { Records(codec, file) }

    /** How far the size estimate is above the number of items. */
    ghost function Excess(): int reads this { size - |Contents()| }

    /** Start-up, also after a crash: whatever is on disk, nothing in flight. */
    constructor (codec: Codec<T>, onDisk: string)
      requires Json(codec)
      ensures Valid() && this.codec == codec && file == onDisk && inFlight == None && size == CountLines(onDisk)
      ensures Ended(onDisk) ==> Sound()
      ensures Excess() == MalformedLines(codec, onDisk)
    {
      hide Records, CountLines, MalformedLines, Json, Ended;
      this.codec, file, inFlight, size := codec, onDisk, None, CountLines(onDisk);
      CountExceeds(codec, onDisk);
    }

    /** put is a batch of one. */
    method PutMany(xs: seq<T>)
      requires Valid()
      modifies this
      ensures Valid() && file == old(file) + Lines(codec, xs) && inFlight == old(inFlight) && front == old(front)
      ensures xs == [] ==> file == old(file)
      ensures old(Sound()) || xs == [] ==> Contents() == old(Contents()) + xs && Excess() == old(Excess())
      ensures old(Sound()) ==> Sound()
      ensures size == old(size) + |xs|
    {
      if xs == [] {
        assert file + Lines(codec, xs) == file && Contents() + xs == Contents();
        return;
      }
      hide Records, Lines, Json;
      var payload := Payload(codec, xs);
      RecordsOfLines(codec, xs);
      if Ended(file) { RecordsSplit(codec, file, payload); }
      file := file + payload;
      size := size + |xs|;
    }

    /**
     The front record, left on disk. Malformed lines met on the way are dropped for good. When nothing
     is readable it waits, for a producer who appends `arrival` or, if that is empty, for the wake-up at
     shutdown, after which there is no record to return.
     */
    method Get(arrival: seq<T>) returns (r: Option<T>, waited: bool)
      requires Valid()
      modifies this
      ensures Valid() && r == inFlight && waited == old(inFlight.None? && Contents() == [])
      ensures old(inFlight.Some?) ==> file == old(file) && front == old(front) && r == old(inFlight)
      ensures Contents() == if waited then arrival else old(Contents())
      ensures old(inFlight.None?) ==> r == if Contents() == [] then None else Some(Contents()[0])
      ensures old(inFlight.None?) && r.Some? ==> front == FirstLine(file)
      ensures size == if waited then old(size) + |arrival| else old(size)
      ensures Excess() == old(Excess())
      ensures r.None? ==> file == ""
      ensures old(Sound()) || waited ==> Sound()
    {
      hide Json, Cut, FirstLine, Rest, Records, Ended, Lines;
      waited := false;
      if inFlight.Some? { return inFlight, waited; }
      r := ReadFront();
      if r.None? {
        waited := true;
        assert Ended("") by { EmptyEnds(); }
        NothingToRead(codec);
        PutMany(arrival);
        assert [] + arrival == arrival;
        r := ReadFront();
      }
    }

    /** The reading half of Get: None when nothing is readable. */
    method ReadFront() returns (r: Option<T>)
      requires Valid() && inFlight.None?
      modifies `file, `inFlight, `front
      ensures Valid() && r == inFlight && Contents() == old(Contents())
      ensures r == if Contents() == [] then None else Some(Contents()[0])
      ensures r.Some? ==> front == FirstLine(file)
      ensures r.None? ==> file == ""
      ensures old(Sound()) ==> Sound()
    {
      hide Json, Cut, FirstLine, Rest, Records, Ended;
      while file != ""
        invariant Valid() && inFlight.None? && Contents() == old(Contents())
        invariant Ended(old(file)) ==> Ended(file)
        decreases |file|
      {
        FirstLineIsFront(file);
        RecordsStep(codec, file);
        var parsed := codec.dec(FirstLine(file));
        if parsed.Some? {
          inFlight, front := parsed, FirstLine(file);
          return inFlight;
        }
        file := Rest(file);
      }
      NothingToRead(codec);
      r := None;
    }

    /** Called once the item from Get is written. */
    method TaskDone()
      requires Valid() && inFlight.Some?
      modifies this
      ensures Valid() && inFlight == None && file == Rest(old(file))
      ensures size == if old(size) > 0 then old(size) - 1 else 0
      ensures old(Sound() || front == FirstLine(file)) ==>
                && old(Contents()) == [old(inFlight.value)] + Contents()
                && (old(Excess()) >= 0 ==> Excess() == old(Excess()))
      ensures old(Sound()) ==> Sound()
    {
      if front + "\n" <= file { FrontOfEnded(codec, file, front); }
      file := Rest(file);
      inFlight := None;
      size := if size > 0 then size - 1 else 0;
    }
  }
}
