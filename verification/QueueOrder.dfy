/** When the circular queue of 9.serialport/src/queue.c behaves as a queue, and what a bare store of 0 to
    its size does to that. */
module QueueOrder {
  import opened Queue

  datatype Op = Put(item: int) | Take

  /** What queue_in and queue_out answer: an error, success, or success and an item. */
  datatype Answer = Refused | Accepted | Got(item: int)

  function After(r: Ring, op: Op): (t: Ring)
    requires Shaped(r)
    ensures Shaped(t)
  {
    match op
    case Put(item) => PutIn(r, item)
    case Take => TakeOut(r)
  }

  function AnswerOf(r: Ring, op: Op): Answer
    requires Shaped(r)
  {
    match op
    case Put(_) => if r.size == QUEUE_SIZE then Refused else Accepted
    case Take => if r.size == 0 then Refused else Got(r.items[r.head])
  }

  function Answers(r: Ring, ops: seq<Op>): seq<Answer>
    requires Shaped(r)
    decreases |ops|
  {
    if ops == [] then [] else [AnswerOf(r, ops[0])] + Answers(After(r, ops[0]), ops[1..])
  }

  /** The answers of a queue of at most QUEUE_SIZE items that holds q, first in first out. */
  function Expected(q: seq<int>, ops: seq<Op>): seq<Answer>
    decreases |ops|
  {
    if ops == [] then []
    else
      match ops[0]
      case Put(item) => [if |q| == QUEUE_SIZE then Refused else Accepted] + Expected(Enqueued(q, item), ops[1..])
      case Take => [if q == [] then Refused else Got(q[0])] + Expected(Dequeued(q), ops[1..])
  }

  /** From here on, whatever is put in and taken out, r answers as a queue that holds q. */
  ghost predicate InOrder(r: Ring, q: seq<int>)
    requires Shaped(r)
  {
    forall ops: seq<Op> :: Answers(r, ops) == Expected(q, ops)
  }

  lemma {:induction false} HoldsInOrder(r: Ring, q: seq<int>, ops: seq<Op>)
    requires Holds(r, q)
    ensures Answers(r, ops) == Expected(q, ops)
    decreases |ops|
  {
    hide Holds, Clear;
    Sized(r, q);
    if ops != [] {
      match ops[0] {
        case Put(item) => PutHolds(r, q, item); HoldsInOrder(PutIn(r, item), Enqueued(q, item), ops[1..]);
        case Take => TakeHolds(r, q); HoldsInOrder(TakeOut(r), Dequeued(q), ops[1..]);
      }
    }
  }

  /** A queue of q whose size is set to 0 is an empty queue exactly when it was empty or full: then head and
      tail are at the same place. */
  lemma CutInOrder(r: Ring, q: seq<int>)
    requires Holds(r, q)
    ensures InOrder(r.(size := 0), []) <==> q == [] || |q| == QUEUE_SIZE
  {
    var cut := r.(size := 0);
    if q == [] || |q| == QUEUE_SIZE {
      assert Holds(cut, []);
      forall ops: seq<Op> ensures Answers(cut, ops) == Expected([], ops) { HoldsInOrder(cut, [], ops); }
    } else {
      var x := r.items[r.head] + 1;
      PutThenTake(cut, x);
      assert r.tail != r.head;
    }
  }

  /** What comes out of an empty-sized ring after x was put in is what lay at its head. */
  lemma PutThenTake(r: Ring, x: int)
    requires Shaped(r) && r.size == 0
    ensures Answers(r, [Put(x), Take]) == [Accepted, Got(if r.tail == r.head then x else r.items[r.head])]
    ensures Expected([], [Put(x), Take]) == [Accepted, Got(x)]
  {
    var ops := [Put(x), Take];
    assert ops[1..] == [Take] && ops[1..][1..] == [];
    var t := PutIn(r, x);
    assert Answers(t, [Take]) == [AnswerOf(t, Take)] + Answers(TakeOut(t), []);
    assert Expected([x], [Take]) == [Got(x)] + Expected([], []);
    assert Expected([], ops) == [Accepted] + Expected([x], [Take]);
  }

  /** r holds q but reports `lag` items fewer. */
  predicate Lags(r: Ring, q: seq<int>, lag: nat) {
    Holds(r.(size := r.size + lag), q)
  }

  /** So every item comes out `lag` items late, behind the ones left over, and the lag stays. */
  lemma LagStays(r: Ring, q: seq<int>, lag: nat, x: int)
    requires Shaped(r) && Lags(r, q, lag)
    ensures |q| < QUEUE_SIZE ==> Lags(PutIn(r, x), q + [x], lag)
    ensures r.size > 0 ==> AnswerOf(r, Take) == Got(q[0]) && Lags(TakeOut(r), q[1..], lag)
  {
    hide Holds, Clear;
    var full := r.(size := r.size + lag);
    Sized(full, q);
    PutHolds(full, q, x);
    TakeHolds(full, q);
  }

  // ---- the delay after a cut ---------------------------------------------------------------------

  function Puts(ops: seq<Op>): seq<int>
    decreases |ops|
  {
    if ops == [] then [] else (if ops[0].Put? then [ops[0].item] else []) + Puts(ops[1..])
  }

  function Items(answers: seq<Answer>): seq<int> {
    if answers == [] then [] else (if answers[0].Got? then [answers[0].item] else []) + Items(answers[1..])
  }

  /** Starting from a size of `size`, no insertion brings it above QUEUE_SIZE - lag. */
  predicate Roomy(size: nat, lag: nat, ops: seq<Op>)
    decreases |ops|
  {
    ops == [] ||
    match ops[0]
    case Put(_) => size + lag < QUEUE_SIZE && Roomy(size + 1, lag, ops[1..])
    case Take => Roomy(if size == 0 then 0 else size - 1, lag, ops[1..])
  }

  /** The same but for which item comes out. */
  predicate Alike(a: seq<Answer>, b: seq<Answer>) {
    |a| == |b| && forall i :: 0 <= i < |a| ==> (a[i].Got? <==> b[i].Got?) && (a[i].Refused? <==> b[i].Refused?)
  }

  /** What is refused depends on the size only. */
  lemma {:induction false} SizeTells(r: Ring, p: seq<int>, ops: seq<Op>)
    requires Shaped(r) && |p| == r.size
    ensures Alike(Answers(r, ops), Expected(p, ops))
    decreases |ops|
  {
    if ops != [] {
      var t := After(r, ops[0]);
      match ops[0] {
        case Put(x) => SizeTells(t, Enqueued(p, x), ops[1..]);
        case Take => SizeTells(t, Dequeued(p), ops[1..]);
      }
      AlikeStep(AnswerOf(r, ops[0]), Expected(p, ops)[0], Answers(t, ops[1..]), Expected(p, ops)[1..]);
    }
  }

  lemma AlikeStep(x: Answer, y: Answer, a: seq<Answer>, b: seq<Answer>)
    requires Alike(a, b) && (x.Got? <==> y.Got?) && (x.Refused? <==> y.Refused?)
    ensures Alike([x] + a, [y] + b)
  {
  }

  /** Answers alike give out as many items. */
  lemma {:induction false} AsMany(a: seq<Answer>, b: seq<Answer>)
    requires Alike(a, b)
    ensures |Items(a)| == |Items(b)|
  {
    if a != [] {
      assert a[0].Got? <==> b[0].Got?;
      AsMany(a[1..], b[1..]);
    }
  }

  lemma {:induction false} LagItems(r: Ring, q: seq<int>, lag: nat, ops: seq<Op>)
    requires Shaped(r) && Lags(r, q, lag) && |q| == r.size + lag && Roomy(r.size, lag, ops)
    ensures Items(Answers(r, ops)) <= q + Puts(ops)
    decreases |ops|
  {
    hide Holds, Lags, PutIn, TakeOut;
    Steps(r, ops);
    if ops != [] {
      LagStays(r, q, lag, if ops[0].Put? then ops[0].item else 0);
      match ops[0] {
        case Put(x) =>
          LagItems(PutIn(r, x), q + [x], lag, ops[1..]);
          Joined(q, [x], Puts(ops[1..]));
        case Take =>
          if r.size == 0 {
            LagItems(r, q, lag, ops[1..]);
          } else {
            LagItems(TakeOut(r), q[1..], lag, ops[1..]);
            Joined([q[0]], q[1..], Puts(ops[1..]));
            assert q == [q[0]] + q[1..] && Puts(ops) == Puts(ops[1..]);
          }
      }
    }
  }

  lemma Joined(a: seq<int>, b: seq<int>, c: seq<int>)
    ensures a + b + c == a + (b + c)
  {
  }

  lemma Steps(r: Ring, ops: seq<Op>)
    requires Shaped(r)
    ensures ops != [] ==>
              var x := AnswerOf(r, ops[0]);
              && Items(Answers(r, ops)) ==
                   (if x.Got? then [x.item] else []) + Items(Answers(After(r, ops[0]), ops[1..]))
              && (ops[0].Put? ==> PutIn(r, ops[0].item).size == (if r.size < QUEUE_SIZE then r.size + 1 else r.size))
              && (ops[0].Take? ==> if r.size == 0 then TakeOut(r) == r else TakeOut(r).size == r.size - 1)
  {
    if ops != [] {
      var rest := Answers(After(r, ops[0]), ops[1..]);
      assert Answers(r, ops)[1..] == rest;
    }
  }

  /** First in, first out. */
  lemma {:induction false} FairItems(q: seq<int>, ops: seq<Op>, lag: nat)
    requires Roomy(|q|, lag, ops)
    ensures Items(Expected(q, ops)) <= q + Puts(ops)
    decreases |ops|
  {
    if ops != [] {
      match ops[0] {
        case Put(x) =>
          FairItems(q + [x], ops[1..], lag);
          Joined(q, [x], Puts(ops[1..]));
        case Take =>
          if q == [] {
            FairItems(q, ops[1..], lag);
          } else {
            FairItems(q[1..], ops[1..], lag);
            Joined([q[0]], q[1..], Puts(ops[1..]));
            assert q == [q[0]] + q[1..] && Puts(ops) == Puts(ops[1..]);
          }
      }
    }
  }

  /** A queue of q whose size is set to 0 takes and refuses as an empty one does; and as long as there is room for q
      as well it gives out q first: every item comes out |q| places late. */
  lemma CutDelays(r: Ring, q: seq<int>, ops: seq<Op>)
    requires Holds(r, q)
    ensures var got, fair := Answers(r.(size := 0), ops), Expected([], ops);
            && Alike(got, fair)
            && (Roomy(0, |q|, ops) ==>
                  && |Items(got)| == |Items(fair)|
                  && Items(got) <= q + Puts(ops) && Items(fair) <= Puts(ops))
  {
    hide Roomy, Alike, Holds;
    var cut := r.(size := 0);
    Sized(r, q);
    SizeTells(cut, [], ops);
    AsMany(Answers(cut, ops), Expected([], ops));
    if Roomy(0, |q|, ops) {
      assert cut.(size := 0 + |q|) == r;
      LagItems(cut, q, |q|, ops);
      FairItems([], ops, |q|);
      assert [] + Puts(ops) == Puts(ops);
    }
  }
}
