/** read_command_nonblocking of main.c: a byte-at-a-time tokenizer over a
    static 100-byte buffer. Each call consumes the result of one
    non-blocking one-byte read of the command stream. */
module Tokenizer {

  /** Size of the static buffer; one byte is kept for the terminator, so a
      token holds at most 99 bytes. */
  const BufferSize: nat := 100
  const MaxToken: nat := BufferSize - 1

  /** The result of one `read(fd, &c, 1)`: a byte, nothing available yet
      (a negative return such as EAGAIN), or end of stream (zero bytes). */
  datatype ReadResult = Byte(c: char) | NoData | Closed

  /** What one call reports: a complete token (the C function returns 1),
      nothing yet (0), or end of stream (-1). */
  datatype Outcome = Token(text: string) | Nothing | EndOfStream

  function Code(o: Outcome): (r: int)
    ensures -1 <= r <= 1
    ensures r == 1 <==> o.Token?
    ensures r == -1 <==> o.EndOfStream?
  {
    match o
    case Token(_) => 1
    case Nothing => 0
    case EndOfStream => -1
  }

  /** isspace in the C locale. */
  predicate IsSpace(c: char) {
    c == ' ' || c == '\t' || c == '\n' || c == '\r' || c == 11 as char || c == 12 as char
  }

  /** The meaning of one call on the bytes buffered so far: the outcome and
      the bytes buffered afterwards. */
  function Step(pending: string, r: ReadResult): (res: (Outcome, string))
    ensures |pending| <= MaxToken ==> |res.1| <= MaxToken
    ensures res.0.Token? <==> r.Byte? && IsSpace(r.c) && pending != []
    ensures res.0.Token? ==> res.0.text == pending && res.1 == []
    ensures res.0.EndOfStream? <==> r.Closed?
    ensures !res.0.Token? && !(r.Byte? && !IsSpace(r.c)) ==> res.1 == pending
    ensures r.Byte? && !IsSpace(r.c) ==>
              res.1 == if |pending| < MaxToken then pending + [r.c] else pending
  {
    match r
    case Byte(c) =>
      if IsSpace(c) then
        if |pending| > 0 then (Token(pending), []) else (Nothing, pending)
      else
        (Nothing, if |pending| < MaxToken then pending + [c] else pending)
    case NoData => (Nothing, pending)
    case Closed => (EndOfStream, pending)
  }

  /** The function-local statics `buf` and `pos`. */
  class CommandReader {
    var buf: array<char>
    var pos: nat

    ghost predicate Valid()
      reads this
    {
      buf.Length == BufferSize && pos <= MaxToken
    }

    /** The bytes of the token being accumulated. */
    function Pending(): (s: string)
      reads this, buf
      requires Valid()
      ensures |s| == pos
    {
      buf[..pos]
    }

    constructor ()
      ensures Valid() && fresh(buf) && Pending() == []
    {
      buf := new char[BufferSize];
      pos := 0;
    }

    /** One call of read_command_nonblocking, given what its read returned. */
    method Feed(r: ReadResult) returns (out: Outcome)
      requires Valid()
      modifies this`pos, buf
      ensures Valid()
      ensures (out, Pending()) == Step(old(Pending()), r)
    {
      ghost var before := Pending();
      match r
      case Byte(c) =>
        if IsSpace(c) {
          if pos > 0 {
            buf[pos] := 0 as char;
            assert buf[..pos] == before;
            out := Token(buf[..pos]);
            pos := 0;
            return;
          }
        } else {
          if pos < MaxToken {
            buf[pos] := c;
            pos := pos + 1;
            assert Pending() == before + [c];
          }
        }
        out := Nothing;
      case NoData =>
        out := Nothing;
      case Closed =>
        out := EndOfStream;
    }
  }

  /** Feeding a whole sequence of read results, one call each. */
  function Run(pending: string, rs: seq<ReadResult>): (res: (seq<Outcome>, string))
    ensures |res.0| == |rs|
    decreases rs
  {
    if rs == [] then ([], pending)
    else
      var (o, p) := Step(pending, rs[0]);
      var (os, q) := Run(p, rs[1..]);
      ([o] + os, q)
  }

  function Bytes(w: string): (rs: seq<ReadResult>)
    ensures |rs| == |w|
    ensures forall i :: 0 <= i < |w| ==> rs[i] == Byte(w[i])
  {
    if w == [] then [] else [Byte(w[0])] + Bytes(w[1..])
  }

  predicate NoSpace(w: string) {
    forall i :: 0 <= i < |w| ==> !IsSpace(w[i])
  }

  /** The first 99 bytes: what the buffer keeps of a longer run. */
  function Clip(s: string): (r: string)
    ensures |r| <= MaxToken
    ensures r == s[..if |s| <= MaxToken then |s| else MaxToken]
  {
    if |s| <= MaxToken then s else s[..MaxToken]
  }

  /** A run of non-space bytes reports nothing and extends the buffered
      token up to 99 bytes, dropping the excess. */
  lemma {:induction false} RunWord(pending: string, w: string)
    requires |pending| <= MaxToken && NoSpace(w)
    ensures Run(pending, Bytes(w)).1 == Clip(pending + w)
    ensures forall i :: 0 <= i < |w| ==> Run(pending, Bytes(w)).0[i] == Nothing
    decreases w
  {
    if w == [] {
      assert pending + w == pending;
    } else {
      var rs := Bytes(w);
      assert rs == [Byte(w[0])] + Bytes(w[1..]);
      var p := Step(pending, Byte(w[0])).1;
      assert NoSpace(w[1..]) by {
        forall i | 0 <= i < |w| - 1 ensures !IsSpace(w[1..][i]) {
          assert w[1..][i] == w[i + 1];
        }
      }
      RunWord(p, w[1..]);
      var tail := Run(p, Bytes(w[1..]));
      RunCons(pending, Byte(w[0]), Bytes(w[1..]));
      assert Run(pending, rs) == ([Nothing] + tail.0, tail.1);
      ClipStep(pending, w);
    }
  }

  lemma RunCons(pending: string, r: ReadResult, rs: seq<ReadResult>)
    ensures var (o, p) := Step(pending, r);
            Run(pending, [r] + rs) == ([o] + Run(p, rs).0, Run(p, rs).1)
  {
    assert ([r] + rs)[0] == r && ([r] + rs)[1..] == rs;
  }

  lemma RunSingle(pending: string, r: ReadResult)
    ensures Run(pending, [r]) == ([Step(pending, r).0], Step(pending, r).1)
  {
    var (o, p) := Step(pending, r);
    assert [r][0] == r && [r][1..] == [];
    assert Run(p, []) == ([], p);
    assert [o] + [] == [o];
  }

  /** Buffering one more byte commutes with clipping. */
  lemma ClipStep(pending: string, w: string)
    requires |pending| <= MaxToken && w != [] && !IsSpace(w[0])
    ensures Clip(Step(pending, Byte(w[0])).1 + w[1..]) == Clip(pending + w)
  {
    var p := Step(pending, Byte(w[0])).1;
    if |pending| < MaxToken {
      assert p + w[1..] == pending + w;
    } else {
      assert (pending + w)[..MaxToken] == pending;
      assert (p + w[1..])[..MaxToken] == pending;
    }
  }

  /** A word followed by a whitespace byte is reported as exactly one
      token, its first 99 bytes, and leaves the buffer empty. */
  lemma WordThenSpace(w: string, sp: char)
    requires w != [] && NoSpace(w) && IsSpace(sp)
    ensures var (outs, rest) := Run([], Bytes(w) + [Byte(sp)]);
            rest == [] && outs[|w|] == Token(Clip(w)) &&
            forall i :: 0 <= i < |w| ==> outs[i] == Nothing
  {
    var r1 := Run([], Bytes(w));
    RunWord([], w);
    assert [] + w == w;
    assert r1.1 == Clip(w) && r1.1 != [];
    var r2 := Run(r1.1, [Byte(sp)]);
    RunSingle(r1.1, Byte(sp));
    assert r2 == ([Token(Clip(w))], []);
    RunConcat([], Bytes(w), [Byte(sp)]);
    var outs := r1.0 + r2.0;
    assert outs[|w|] == Token(Clip(w));
  }

  /** Feeding two runs one after the other is feeding their concatenation. */
  lemma {:induction false} RunConcat(pending: string, rs: seq<ReadResult>, ts: seq<ReadResult>)
    ensures var (o1, p1) := Run(pending, rs);
            var (o2, p2) := Run(p1, ts);
            Run(pending, rs + ts) == (o1 + o2, p2)
    decreases rs
  {
    if rs != [] {
      var (o, p) := Step(pending, rs[0]);
      RunConcat(p, rs[1..], ts);
      assert (rs + ts)[0] == rs[0];
      assert (rs + ts)[1..] == rs[1..] + ts;
      var r1 := Run(p, rs[1..]);
      var r2 := Run(r1.1, ts);
      assert Run(pending, rs) == ([o] + r1.0, r1.1);
      assert Run(pending, rs + ts) == ([o] + (r1.0 + r2.0), r2.1);
      assert [o] + (r1.0 + r2.0) == ([o] + r1.0) + r2.0;
    } else {
      assert rs + ts == ts;
      assert [] + Run(pending, ts).0 == Run(pending, ts).0;
    }
  }
}
