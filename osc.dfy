/**
 * Wire messages, the splitting of an address into segments, and the
 * outbound channel that carries encoded messages to the sender thread.
 */
module Osc {

  type i32 = x: int | -0x8000_0000 <= x < 0x8000_0000

  /** The argument kinds the routes read and write. */
  datatype OscType = Int(i: i32) | Float(f: real) | Str(s: string) | Bool(b: bool)

  datatype Message = Message(addr: string, args: seq<OscType>)

  /** A decoded datagram: one message, or a bundle of packets. */
  datatype Packet = MessagePacket(msg: Message) | Bundle(content: seq<Packet>)

  predicate IsSegment(s: string) {
    s != [] && '/' !in s
  }

  predicate AllSegments(segs: seq<string>) {
    forall i :: 0 <= i < |segs| ==> IsSegment(segs[i])
  }

  /** `s.split('/')`: the pieces between slashes, empty ones included; always at least one. */
  function Split(s: string): (r: seq<string>)
    ensures |r| >= 1
    ensures forall i :: 0 <= i < |r| ==> '/' !in r[i]
  {
    if s == [] then [[]]
    else if s[0] == '/' then [[]] + Split(s[1..])
    else var rest := Split(s[1..]); [[s[0]] + rest[0]] + rest[1..]
  }

  /** `.filter(|s| !s.is_empty())`. */
  function DropEmpty(ss: seq<string>): seq<string> {
    if ss == [] then []
    else if ss[0] == [] then DropEmpty(ss[1..])
    else [ss[0]] + DropEmpty(ss[1..])
  }

  /** `parse_osc_address`: split on `/` and keep the non-empty pieces. */
  function ParseAddress(addr: string): seq<string> {
    DropEmpty(Split(addr))
  }

  /** The segments joined by single slashes (`join("/")`). */
  function Join(segs: seq<string>): string {
    if segs == [] then []
    else if |segs| == 1 then segs[0]
    else segs[0] + "/" + Join(segs[1..])
  }

  lemma {:induction false} DropEmptyAppend(a: seq<string>, b: seq<string>)
    ensures DropEmpty(a + b) == DropEmpty(a) + DropEmpty(b)
  {
    if a == [] {
      assert a + b == b;
    } else {
      assert (a + b)[0] == a[0];
      assert (a + b)[1..] == a[1..] + b;
      DropEmptyAppend(a[1..], b);
    }
  }

  lemma {:induction false} DropEmptyKeepsSegments(ss: seq<string>)
    requires forall i :: 0 <= i < |ss| ==> '/' !in ss[i]
    ensures AllSegments(DropEmpty(ss))
  {
    if ss != [] {
      DropEmptyKeepsSegments(ss[1..]);
    }
  }

  /** Every parsed segment is non-empty and free of slashes. */
  lemma {:induction false} ParsedAreSegments(addr: string)
    ensures AllSegments(ParseAddress(addr))
  {
    DropEmptyKeepsSegments(Split(addr));
  }

  lemma {:induction false} SplitAtSlash(x: string, y: string)
    ensures Split(x + "/" + y) == Split(x) + Split(y)
  {
    if x == [] {
      assert x + "/" + y == "/" + y;
      assert ("/" + y)[1..] == y;
    } else {
      assert (x + "/" + y)[1..] == x[1..] + "/" + y;
      SplitAtSlash(x[1..], y);
    }
  }

  /** A slash in the address separates the segments on its two sides, whatever they are. */
  lemma {:induction false} ParseAtSlash(x: string, y: string)
    ensures ParseAddress(x + "/" + y) == ParseAddress(x) + ParseAddress(y)
  {
    SplitAtSlash(x, y);
    DropEmptyAppend(Split(x), Split(y));
  }

  lemma {:induction false} SplitNoSlash(w: string)
    requires '/' !in w
    ensures Split(w) == [w]
  {
    if w != [] {
      assert w == [w[0]] + w[1..];
      SplitNoSlash(w[1..]);
    }
  }

  /** A slash-free text is one segment (none if it is empty). */
  lemma {:induction false} ParseNoSlash(w: string)
    requires '/' !in w
    ensures ParseAddress(w) == if w == [] then [] else [w]
  {
    SplitNoSlash(w);
    assert [w][1..] == [];
    assert DropEmpty([w]) == (if w == [] then [] else [w]) + DropEmpty([]);
  }

  /** Joining segments and parsing again gives back the same segments. */
  lemma {:induction false} ParseJoin(segs: seq<string>)
    requires AllSegments(segs)
    ensures ParseAddress(Join(segs)) == segs
  {
    if segs == [] {
      ParseNoSlash([]);
    } else if |segs| == 1 {
      ParseNoSlash(segs[0]);
    } else {
      ParseAtSlash(segs[0], Join(segs[1..]));
      ParseNoSlash(segs[0]);
      ParseJoin(segs[1..]);
    }
  }

  /** Re-parsing `"/" + join(segments, "/")` yields the same list. */
  lemma {:induction false} ParseSlashJoin(segs: seq<string>)
    requires AllSegments(segs)
    ensures ParseAddress("/" + Join(segs)) == segs
  {
    assert "/" + Join(segs) == [] + "/" + Join(segs);
    ParseAtSlash([], Join(segs));
    ParseNoSlash([]);
    ParseJoin(segs);
  }

  /** The parse is stable: joining the parsed segments and parsing again gives the same segments. */
  lemma {:induction false} ParseThenJoin(addr: string)
    ensures ParseAddress(Join(ParseAddress(addr))) == ParseAddress(addr)
  {
    ParsedAreSegments(addr);
    ParseJoin(ParseAddress(addr));
  }

  /** The address `/s0/s1/…`: every segment after a slash. */
  function Path(segs: seq<string>): string {
    if segs == [] then [] else "/" + segs[0] + Path(segs[1..])
  }

  lemma {:induction false} PathIsSlashJoin(segs: seq<string>)
    requires segs != []
    ensures Path(segs) == "/" + Join(segs)
  {
    if |segs| == 1 {
      assert segs[1..] == [];
    } else {
      PathIsSlashJoin(segs[1..]);
      AppendAssoc("/" + segs[0], "/", Join(segs[1..]));
    }
  }

  /** Round trip: a path of segments parses back to those segments. */
  lemma {:induction false} ParsePath(segs: seq<string>)
    requires AllSegments(segs)
    ensures ParseAddress(Path(segs)) == segs
  {
    if segs == [] {
      ParseNoSlash([]);
    } else {
      PathIsSlashJoin(segs);
      ParseSlashJoin(segs);
    }
  }

  /** A prefix one longer is the shorter prefix and the next element. */
  lemma {:induction false} TakeStep<T>(s: seq<T>, i: nat)
    requires i < |s|
    ensures s[..i + 1] == s[..i] + [s[i]]
  {
  }

  /** Appending in two steps is appending the two parts at once. */
  lemma {:induction false} AppendAssoc<T>(a: seq<T>, b: seq<T>, c: seq<T>)
    ensures a + b + c == a + (b + c)
  {
  }

  /**
   * The sending half of the bounded channel to the sender thread. `sent`
   * is everything accepted so far, in order; it only grows. `open` is false
   * when the receiving half is gone, in which case every send fails.
   */
  class Outbox {
    var sent: seq<Message>
    const open: bool

    constructor (open: bool)
      ensures sent == [] && this.open == open
    {
      sent := [];
      this.open := open;
    }

    method Send(m: Message) returns (ok: bool)
      modifies this
      ensures ok == open
      ensures sent == if open then old(sent) + [m] else old(sent)
    {
      ok := open;
      if open {
        sent := sent + [m];
      }
    }
  }
}
