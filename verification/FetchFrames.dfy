/** The answer to a fetch comes in several frames, among frames for other requests. */
module FetchFrames {
  import opened Common
  import opened Snapshots

  /** One frame of an answer: consecutive blocks from `first` on, or an error, or something else. */
  datatype Body = Pages(first: nat, blocks: seq<Block>, last: bool) | Refusal(code: nat) | Other

  datatype Frame = Frame(rid: nat, body: Body)

  datatype Fetched = Blocks(blocks: seq<(nat, Block)>) | Refused(code: nat) | Unexpected | Lost

  // ---------------------------------------------------------------------------------------------------------------
  // What is asked for
  // ---------------------------------------------------------------------------------------------------------------

  function Indexed(first: nat, blocks: seq<Block>): (pairs: seq<(nat, Block)>)
    ensures |pairs| == |blocks| && forall k :: 0 <= k < |pairs| ==> pairs[k] == (first + k, blocks[k])
  {
    seq(|blocks|, k requires 0 <= k < |blocks| => (first + k, blocks[k]))
  }

  /** The blocks of several ranges of a snapshot, each with its index. */
  function Wanted(s: Snapshot, ranges: seq<(nat, nat)>, pageSize: nat): seq<(nat, Block)> {
    if ranges == [] then []
    else
      var n := |ranges| - 1;
      Wanted(s, ranges[..n], pageSize) + Indexed(ranges[n].0, Slice(s, ranges[n].0, ranges[n].1, pageSize))
  }

  function Total(ranges: seq<(nat, nat)>): nat {
    if ranges == [] then 0 else Total(ranges[..|ranges| - 1]) + ranges[|ranges| - 1].1
  }

  lemma {:induction false} WantedTotal(s: Snapshot, ranges: seq<(nat, nat)>, pageSize: nat)
    ensures |Wanted(s, ranges, pageSize)| == Total(ranges)
    decreases |ranges|
  {
    if ranges != [] { WantedTotal(s, ranges[..|ranges| - 1], pageSize); }
  }

  // ---------------------------------------------------------------------------------------------------------------
  // What arrives
  // ---------------------------------------------------------------------------------------------------------------

  /** The frames that answer request `rid`, in order. */
  function Answers(frames: seq<Frame>, rid: nat): seq<Body> {
    if frames == [] then []
    else
      var n := |frames| - 1;
      Answers(frames[..n], rid) + if frames[n].rid == rid then [frames[n].body] else []
  }

  function Joined(bodies: seq<Body>): seq<(nat, Block)> {
    if bodies == [] then []
    else
      var n := |bodies| - 1;
      Joined(bodies[..n]) + if bodies[n].Pages? then Indexed(bodies[n].first, bodies[n].blocks) else []
  }

  predicate Sized(b: Body, size: nat) { b.Pages? && forall data <- b.blocks :: |data| == size }

  /** The first `n` frames carry blocks of the right size, and none of them is the last. */
  ghost predicate Open(bodies: seq<Body>, n: nat, size: nat) {
    n <= |bodies| && forall k :: 0 <= k < n ==> Sized(bodies[k], size) && !bodies[k].last
  }

  lemma {:induction false} StaysOpen(bodies: seq<Body>, n: nat, size: nat)
    requires n < |bodies| && Open(bodies, n, size) && Sized(bodies[n], size) && !bodies[n].last
    ensures Open(bodies, n + 1, size)
  {
  }

  /** Frame `n` completes the answer. */
  ghost predicate EndsAt(bodies: seq<Body>, n: nat, size: nat) {
    n < |bodies| && Open(bodies, n, size) && Sized(bodies[n], size) && bodies[n].last
  }

  lemma {:induction false} AnswersGrow(frames: seq<Frame>, n: nat, rid: nat)
    requires n <= |frames|
    ensures Answers(frames[..n], rid) <= Answers(frames, rid)
    decreases |frames|
  {
    if n == |frames| {
      assert frames[..n] == frames;
    } else {
      var k := |frames| - 1;
      assert frames[..k][..n] == frames[..n];
      AnswersGrow(frames[..k], n, rid);
    }
  }

  /** A frame for this request is an answer wherever it lies, and one for another request is none. */
  lemma {:induction false} AnswersAmong(before: seq<Frame>, f: Frame, after: seq<Frame>, rid: nat)
    ensures Answers(before + [f] + after, rid) ==
            Answers(before, rid) + (if f.rid == rid then [f.body] else []) + Answers(after, rid)
    decreases |after|
  {
    var own := if f.rid == rid then [f.body] else [];
    var all := before + [f] + after;
    if after == [] {
      assert all[..|before|] == before && all[|before|] == f;
    } else {
      var n := |after| - 1;
      assert all[..|all| - 1] == before + [f] + after[..n] && all[|all| - 1] == after[n];
      AnswersAmong(before, f, after[..n], rid);
    }
  }

  /** The next frame is one more of the answers, or for another request. */
  lemma {:induction false} NextAnswer(frames: seq<Frame>, i: nat, rid: nat, j: nat)
    requires i < |frames| && j <= |Answers(frames, rid)| && Answers(frames[..i], rid) == Answers(frames, rid)[..j]
    ensures frames[i].rid != rid ==> Answers(frames[..i + 1], rid) == Answers(frames, rid)[..j]
    ensures frames[i].rid == rid ==>
              && j < |Answers(frames, rid)| && Answers(frames, rid)[j] == frames[i].body
              && Answers(frames[..i + 1], rid) == Answers(frames, rid)[..j + 1]
              && Joined(Answers(frames, rid)[..j + 1]) == Joined(Answers(frames, rid)[..j]) +
                   (if frames[i].body.Pages? then Indexed(frames[i].body.first, frames[i].body.blocks) else [])
  {
    var all, more := Answers(frames, rid), Answers(frames[..i + 1], rid);
    AnswersSnoc(frames, i, rid);
    AnswersGrow(frames, i + 1, rid);
    if frames[i].rid == rid {
      assert more == all[..j] + [frames[i].body];
      assert all[..j + 1] == more;
      JoinedSnoc(all, j);
    }
  }

  lemma {:induction false} AnswersSnoc(frames: seq<Frame>, i: nat, rid: nat)
    requires i < |frames|
    ensures Answers(frames[..i + 1], rid) ==
            Answers(frames[..i], rid) + if frames[i].rid == rid then [frames[i].body] else []
  {
    assert frames[..i + 1][..i] == frames[..i];
  }

  lemma {:induction false} JoinedSnoc(all: seq<Body>, j: nat)
    requires j < |all|
    ensures Joined(all[..j + 1]) ==
            Joined(all[..j]) + if all[j].Pages? then Indexed(all[j].first, all[j].blocks) else []
  {
    assert all[..j + 1][..j] == all[..j];
  }

  /** Frame `n` completes the answer, and its blocks are as many as expected: those of all its frames, in order. */
  ghost predicate Gives(all: seq<Body>, n: nat, expected: nat, size: nat, blocks: seq<(nat, Block)>) {
    EndsAt(all, n, size) && blocks == Joined(all[..n + 1]) && |blocks| == expected
  }

  /** Frame `n` is the first one that does not go on: it is none with blocks of the right size, or the last. */
  ghost predicate DecidesAt(all: seq<Body>, n: nat, size: nat) {
    n < |all| && Open(all, n, size) && !(Sized(all[n], size) && !all[n].last)
  }

  /**
   * The first frame that does not go on decides: a refusal with its code, a complete answer with its blocks if they are
   * as many as expected, anything else as unexpected. Without such a frame the answer is lost.
   */
  ghost predicate IsFetched(all: seq<Body>, expected: nat, size: nat, r: Fetched) {
    match r
    case Blocks(blocks) => exists n: nat :: Gives(all, n, expected, size, blocks)
    case Refused(code) => exists n: nat :: DecidesAt(all, n, size) && all[n] == Refusal(code)
    case Unexpected =>
      exists n: nat :: DecidesAt(all, n, size) && !all[n].Refusal? &&
                       !(Sized(all[n], size) && |Joined(all[..n + 1])| == expected)
    case Lost => Open(all, |all|, size)
  }

  /** What frame `n`, which decides, makes of the answer. */
  ghost predicate Decides(all: seq<Body>, n: nat, expected: nat, size: nat, r: Fetched) {
    && DecidesAt(all, n, size)
    && r == if all[n].Refusal? then Refused(all[n].code)
            else if Sized(all[n], size) && |Joined(all[..n + 1])| == expected then Blocks(Joined(all[..n + 1]))
            else Unexpected
  }

  lemma {:induction false} DecidesOnce(all: seq<Body>, a: nat, b: nat, size: nat)
    requires DecidesAt(all, a, size)
    ensures DecidesAt(all, b, size) ==> a == b
    ensures !Open(all, |all|, size)
  {
  }

  lemma {:induction false} Decider(all: seq<Body>, expected: nat, size: nat, r: Fetched) returns (n: nat)
    requires IsFetched(all, expected, size, r) && !r.Lost?
    ensures Decides(all, n, expected, size, r)
  {
    match r
    case Blocks(blocks) => n :| Gives(all, n, expected, size, blocks);
    case Refused(code) => n :| DecidesAt(all, n, size) && all[n] == Refusal(code);
    case Unexpected =>
      n :| DecidesAt(all, n, size) && !all[n].Refusal? && !(Sized(all[n], size) && |Joined(all[..n + 1])| == expected);
  }

  lemma {:induction false} OneDecision(all: seq<Body>, n: nat, m: nat, expected: nat, size: nat, r: Fetched,
                                       other: Fetched)
    requires Decides(all, n, expected, size, r) && Decides(all, m, expected, size, other)
    ensures r == other
  {
    DecidesOnce(all, n, m, size);
  }

  lemma {:induction false} NotLost(all: seq<Body>, n: nat, expected: nat, size: nat, r: Fetched)
    requires Decides(all, n, expected, size, r)
    ensures !IsFetched(all, expected, size, Lost)
  {
    DecidesOnce(all, n, n, size);
  }

  /** There is just one such result. */
  lemma {:induction false} FetchedOnce(all: seq<Body>, expected: nat, size: nat, r: Fetched, other: Fetched)
    requires IsFetched(all, expected, size, r) && IsFetched(all, expected, size, other)
    ensures r == other
  {
    if !r.Lost? {
      var n := Decider(all, expected, size, r);
      NotLost(all, n, expected, size, r);
      var m := Decider(all, expected, size, other);
      OneDecision(all, n, m, expected, size, r, other);
    } else if !other.Lost? {
      var m := Decider(all, expected, size, other);
      NotLost(all, m, expected, size, other);
    }
  }

  /**
   * Collects the answer to request `rid`: the blocks of all its frames up to the last one, each with its index,
   * whatever other frames lie between.
   */
  method FetchFrames(frames: seq<Frame>, rid: nat, expected: nat, size: nat) returns (r: Fetched)
    ensures IsFetched(Answers(frames, rid), expected, size, r)
  {
    var blocks: seq<(nat, Block)> := [];
    ghost var all := Answers(frames, rid);
    ghost var j := 0;
    assert all[..0] == Answers(frames[..0], rid);
    for i := 0 to |frames|
      invariant 0 <= j <= |all| && Answers(frames[..i], rid) == all[..j]
      invariant blocks == Joined(all[..j]) && Open(all, j, size)
    {
      NextAnswer(frames, i, rid, j);
      if frames[i].rid == rid {
        var body := frames[i].body;
        if !Sized(body, size) {
          assert DecidesAt(all, j, size);
          r := if body.Refusal? then Refused(body.code) else Unexpected;
          return;
        }
        blocks := blocks + Indexed(body.first, body.blocks);
        if body.last {
          assert DecidesAt(all, j, size) && blocks == Joined(all[..j + 1]);
          assert |blocks| == expected ==> Gives(all, j, expected, size, blocks);
          r := if |blocks| == expected then Blocks(blocks) else Unexpected;
          return;
        }
        StaysOpen(all, j, size);
        j := j + 1;
      }
    }
    assert frames[..|frames|] == frames;
    r := Lost;
  }

  // ---------------------------------------------------------------------------------------------------------------
  // How the server may answer
  // ---------------------------------------------------------------------------------------------------------------

  /** The frame has consecutive blocks of range `r`, from its block `o` on, of which `sent` blocks were sent before. */
  ghost predicate IsPieceOf(s: Snapshot, ranges: seq<(nat, nat)>, size: nat, body: Body, sent: nat, r: nat, o: nat) {
    && body.Pages? && r < |ranges| && o + |body.blocks| <= ranges[r].1 && sent == Total(ranges[..r]) + o
    && body.first == ranges[r].0 + o && body.blocks == Slice(s, body.first, |body.blocks|, size)
  }

  /** No frame has blocks of two ranges, and each goes on where the one before it ended. */
  ghost predicate GoesOn(s: Snapshot, ranges: seq<(nat, nat)>, size: nat, body: Body, sent: nat) {
    body.Pages? && (body.blocks == [] || exists r: nat, o: nat :: IsPieceOf(s, ranges, size, body, sent, r, o))
  }

  /** The frames split the ranges in any way, and the last one says so. */
  ghost predicate IsSplit(s: Snapshot, ranges: seq<(nat, nat)>, size: nat, bodies: seq<Body>) {
    && bodies != [] && |Joined(bodies)| == Total(ranges)
    && (forall k :: 0 <= k < |bodies| ==> GoesOn(s, ranges, size, bodies[k], |Joined(bodies[..k])|))
    && (forall k :: 0 <= k < |bodies| ==> (bodies[k].last <==> k == |bodies| - 1))
  }

  /** Where block `o` of range `r` is among those of all ranges. */
  lemma {:induction false} WantedAt(s: Snapshot, ranges: seq<(nat, nat)>, size: nat, r: nat, o: nat)
    requires r < |ranges| && o < ranges[r].1
    ensures Total(ranges[..r]) + o < |Wanted(s, ranges, size)|
    ensures Wanted(s, ranges, size)[Total(ranges[..r]) + o] == (ranges[r].0 + o, At(s, ranges[r].0 + o, size))
    decreases |ranges|
  {
    var n := |ranges| - 1;
    var front, tail := Wanted(s, ranges[..n], size), Indexed(ranges[n].0, Slice(s, ranges[n].0, ranges[n].1, size));
    WantedTotal(s, ranges[..n], size);
    assert Wanted(s, ranges, size) == front + tail;
    if r == n {
      InBack(front, tail, o);
    } else {
      assert ranges[..n][..r] == ranges[..r];
      WantedAt(s, ranges[..n], size, r, o);
      InFront(front, tail, Total(ranges[..r]) + o);
    }
  }

  lemma InFront<T>(front: seq<T>, tail: seq<T>, i: nat)
    requires i < |front|
    ensures (front + tail)[i] == front[i]
  {
  }

  lemma InBack<T>(front: seq<T>, tail: seq<T>, i: nat)
    requires i < |tail|
    ensures (front + tail)[|front| + i] == tail[i]
  {
  }

  /** A piece is what comes next. */
  lemma {:induction false} PieceIsNext(s: Snapshot, ranges: seq<(nat, nat)>, size: nat, body: Body, sent: nat)
    requires GoesOn(s, ranges, size, body, sent) && sent <= |Wanted(s, ranges, size)|
    ensures var end := sent + |body.blocks|;
            && end <= |Wanted(s, ranges, size)|
            && Wanted(s, ranges, size)[sent..end] == Indexed(body.first, body.blocks)
  {
    if body.blocks != [] {
      var r: nat, o: nat :| IsPieceOf(s, ranges, size, body, sent, r, o);
      forall j: nat | j < |body.blocks|
        ensures sent + j < |Wanted(s, ranges, size)|
        ensures Wanted(s, ranges, size)[sent + j] == Indexed(body.first, body.blocks)[j]
      {
        WantedAt(s, ranges, size, r, o + j);
      }
      WantedAt(s, ranges, size, r, o + |body.blocks| - 1);
    }
  }

  lemma {:induction false} PrefixGoesOn<T>(p: seq<T>, q: seq<T>, whole: seq<T>)
    requires p <= whole && |p| + |q| <= |whole| && whole[|p|..|p| + |q|] == q
    ensures p + q <= whole
  {
    assert whole[..|p| + |q|] == whole[..|p|] + whole[|p|..|p| + |q|];
  }

  /** Frames that go on where the ones before them ended have the first of the wanted blocks. */
  lemma {:induction false} SplitJoins(s: Snapshot, ranges: seq<(nat, nat)>, size: nat, bodies: seq<Body>)
    requires forall k :: 0 <= k < |bodies| ==> GoesOn(s, ranges, size, bodies[k], |Joined(bodies[..k])|)
    ensures Joined(bodies) <= Wanted(s, ranges, size)
    decreases |bodies|
  {
    if bodies == [] {
    } else {
      var n := |bodies| - 1;
      forall k | 0 <= k < n ensures GoesOn(s, ranges, size, bodies[..n][k], |Joined(bodies[..n][..k])|) {
        assert bodies[..n][..k] == bodies[..k];
      }
      SplitJoins(s, ranges, size, bodies[..n]);
      PieceIsNext(s, ranges, size, bodies[n], |Joined(bodies[..n])|);
      PrefixGoesOn(Joined(bodies[..n]), Indexed(bodies[n].first, bodies[n].blocks), Wanted(s, ranges, size));
    }
  }

  lemma {:induction false} SplitEnds(s: Snapshot, ranges: seq<(nat, nat)>, size: nat, all: seq<Body>, n: nat)
    requires (forall i :: 0 <= i < |s| ==> |s[i]| == size) && n < |all| && IsSplit(s, ranges, size, all[..n + 1])
    ensures EndsAt(all, n, size)
  {
    forall k | 0 <= k <= n ensures Sized(all[k], size) && (all[k].last <==> k == n) {
      assert GoesOn(s, ranges, size, all[..n + 1][k], |Joined(all[..n + 1][..k])|);
    }
  }

  /**
   * If the answer starts with frames that split the ranges, however they do, exactly the blocks of the ranges are
   * fetched, each with its index.
   */
  lemma {:induction false} FetchesWanted(s: Snapshot, ranges: seq<(nat, nat)>, size: nat, all: seq<Body>, n: nat,
                                         r: Fetched)
    requires forall i :: 0 <= i < |s| ==> |s[i]| == size
    requires n < |all| && IsSplit(s, ranges, size, all[..n + 1]) && IsFetched(all, Total(ranges), size, r)
    ensures r == Blocks(Wanted(s, ranges, size))
  {
    WantedTotal(s, ranges, size);
    SplitJoins(s, ranges, size, all[..n + 1]);
    SplitEnds(s, ranges, size, all, n);
    assert Gives(all, n, Total(ranges), size, Wanted(s, ranges, size));
    FetchedOnce(all, Total(ranges), size, r, Blocks(Wanted(s, ranges, size)));
  }

  /** For one range the indexes can be dropped: the blocks are those of the range, in order. */
  lemma {:induction false} OneRange(s: Snapshot, first: nat, count: nat, pageSize: nat)
    ensures Wanted(s, [(first, count)], pageSize) == Indexed(first, Slice(s, first, count, pageSize))
  {
    assert [(first, count)][..0] == [];
  }
}
