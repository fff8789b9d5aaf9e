/** The eager view of the reward contract: per validator and period, the weight
    of the delegations that are active, joining or leaving, summed over the
    delegations themselves. The contract never computes these sums. */
module StargateEager {
  import opened Common
  import opened StargateModel
  import opened Sums

  ghost predicate Active(d: Delegation, v: Address, p: nat) {
    d.validator == v && d.start <= p <= d.end
  }

  ghost function ActiveWeight(ds: map<nat, Delegation>, v: Address, p: nat): nat -> int {
    (id: nat) => if id in ds && Active(ds[id], v, p) then Weight(ds[id]) else 0
  }

  ghost function JoiningWeight(ds: map<nat, Delegation>, v: Address, p: nat): nat -> int {
    (id: nat) => if id in ds && ds[id].validator == v && ds[id].start == p then Weight(ds[id]) else 0
  }

  ghost function LeavingWeight(ds: map<nat, Delegation>, v: Address, p: nat): nat -> int {
    (id: nat) => if id in ds && ds[id].validator == v && ds[id].end + 1 == p then Weight(ds[id]) else 0
  }

  /** The sum of the weights of the delegations of v with start <= p <= end. */
  ghost function TrueWeight(c: Chain, v: Address, p: nat): int {
    Sum(c.delegations.Keys, ActiveWeight(c.delegations, v, p))
  }

  ghost function Joining(c: Chain, v: Address, p: nat): int {
    Sum(c.delegations.Keys, JoiningWeight(c.delegations, v, p))
  }

  ghost function Leaving(c: Chain, v: Address, p: nat): int {
    Sum(c.delegations.Keys, LeavingWeight(c.delegations, v, p))
  }

  /** The three sums as one value, so that proofs about the contract can treat
      them as unknown functions with the properties in `Balanced`. */
  datatype Book = Book(active: (Address, nat) -> int, joining: (Address, nat) -> int, leaving: (Address, nat) -> int)

  ghost predicate IsBook(b: Book, c: Chain) {
    && (forall v: Address, p: nat {:trigger TrueWeight(c, v, p)} :: b.active(v, p) == TrueWeight(c, v, p))
    && (forall v: Address, p: nat {:trigger Joining(c, v, p)} :: b.joining(v, p) == Joining(c, v, p))
    && (forall v: Address, p: nat {:trigger Leaving(c, v, p)} :: b.leaving(v, p) == Leaving(c, v, p))
  }

  lemma BookExists(c: Chain)
    ensures exists b :: IsBook(b, c)
  {
    var b := Book((v: Address, p: nat) => TrueWeight(c, v, p),
                  (v: Address, p: nat) => Joining(c, v, p),
                  (v: Address, p: nat) => Leaving(c, v, p));
    assert IsBook(b, c);
  }

  ghost function BookOf(c: Chain): (b: Book)
    ensures IsBook(b, c)
  {
    BookExists(c);
    var b :| IsBook(b, c);
    b
  }

  lemma BookAt(c: Chain, v: Address, p: nat)
    ensures BookOf(c).active(v, p) == TrueWeight(c, v, p)
    ensures BookOf(c).joining(v, p) == Joining(c, v, p)
    ensures BookOf(c).leaving(v, p) == Leaving(c, v, p)
  {
  }

  /** From one period to the next the active weight changes by who joins and who has left. */
  ghost predicate Balanced(b: Book) {
    && (forall v: Address, p: nat :: b.active(v, p) >= 0)
    && (forall v: Address :: b.active(v, 0) == 0)
    && (forall v: Address, p: nat | p >= 1 ::
          && b.active(v, p) == b.active(v, p - 1) + b.joining(v, p) - b.leaving(v, p)
          && 0 <= b.leaving(v, p) <= b.active(v, p - 1)
          && 0 <= b.joining(v, p) <= b.active(v, p))
  }

  ghost predicate ChainOk(c: Chain) {
    && (forall id | id in c.delegations ::
          1 <= c.delegations[id].start <= c.delegations[id].end <= U32_MAX)
    && (forall v: Address :: Completed(c, v) <= U32_MAX)
  }

  lemma BookBalanced(c: Chain)
    requires ChainOk(c)
    ensures Balanced(BookOf(c))
  {
    var b := BookOf(c);
    forall v: Address, p: nat ensures b.active(v, p) >= 0 {
      SumNonNegative(c.delegations.Keys, ActiveWeight(c.delegations, v, p));
      assert b.active(v, p) == TrueWeight(c, v, p);
    }
    forall v: Address ensures b.active(v, 0) == 0 {
      SumSupport(c.delegations.Keys, {}, ActiveWeight(c.delegations, v, 0));
      assert b.active(v, 0) == TrueWeight(c, v, 0);
    }
    forall v: Address, p: nat | p >= 1
      ensures b.active(v, p) == b.active(v, p - 1) + b.joining(v, p) - b.leaving(v, p)
      ensures 0 <= b.leaving(v, p) <= b.active(v, p - 1)
      ensures 0 <= b.joining(v, p) <= b.active(v, p)
    {
      Recurrence(c, v, p);
    }
  }

  lemma Recurrence(c: Chain, v: Address, p: nat)
    requires ChainOk(c) && p >= 1
    ensures TrueWeight(c, v, p) == TrueWeight(c, v, p - 1) + Joining(c, v, p) - Leaving(c, v, p)
    ensures 0 <= Leaving(c, v, p) <= TrueWeight(c, v, p - 1)
    ensures 0 <= Joining(c, v, p) <= TrueWeight(c, v, p)
  {
    var ids, ds := c.delegations.Keys, c.delegations;
    SumBalance(ids, ActiveWeight(ds, v, p), LeavingWeight(ds, v, p), ActiveWeight(ds, v, p - 1),
        JoiningWeight(ds, v, p));
    SumMono(ids, LeavingWeight(ds, v, p), ActiveWeight(ds, v, p - 1));
    SumMono(ids, JoiningWeight(ds, v, p), ActiveWeight(ds, v, p));
    SumNonNegative(ids, LeavingWeight(ds, v, p));
    SumNonNegative(ids, JoiningWeight(ds, v, p));
  }

  // ---------- how the book changes with the chain ----------

  /** b' is b with weight w joining v at `start` and never leaving. */
  ghost predicate Joined(b: Book, b': Book, v: Address, start: nat, w: nat) {
    && (forall u: Address, p: nat ::
          b'.joining(u, p) == b.joining(u, p) + (if u == v && p == start then w else 0))
    && (forall u: Address, p: nat | p <= U32_MAX :: b'.leaving(u, p) == b.leaving(u, p))
    && (forall u: Address, p: nat | u != v || p < start :: b'.active(u, p) == b.active(u, p))
  }

  /** b' is b with weight w of v leaving after period `last`. */
  ghost predicate Left(b: Book, b': Book, v: Address, last: nat, w: nat) {
    && (forall u: Address, p: nat :: b'.joining(u, p) == b.joining(u, p))
    && (forall u: Address, p: nat | p <= U32_MAX ::
          b'.leaving(u, p) == b.leaving(u, p) + (if u == v && p == last + 1 then w else 0))
    && (forall u: Address, p: nat | u != v || p <= last :: b'.active(u, p) == b.active(u, p))
  }

  /** The summands before and after a delegation joins. */
  lemma SummandsJoined(ds: map<nat, Delegation>, id: nat, d: Delegation, u: Address, p: nat)
    requires id !in ds
    ensures var ds' := ds[id := d];
            && (forall k | k in ds ::
                  && ActiveWeight(ds', u, p)(k) == ActiveWeight(ds, u, p)(k)
                  && JoiningWeight(ds', u, p)(k) == JoiningWeight(ds, u, p)(k)
                  && LeavingWeight(ds', u, p)(k) == LeavingWeight(ds, u, p)(k))
            && ActiveWeight(ds', u, p)(id) == (if Active(d, u, p) then Weight(d) else 0)
            && JoiningWeight(ds', u, p)(id) == (if d.validator == u && d.start == p then Weight(d) else 0)
            && LeavingWeight(ds', u, p)(id) == (if d.validator == u && d.end + 1 == p then Weight(d) else 0)
  {
  }

  lemma SumsJoined(c: Chain, id: nat, d: Delegation, u: Address, p: nat)
    requires id !in c.delegations
    ensures var c' := c.(delegations := c.delegations[id := d]);
            && TrueWeight(c', u, p) == TrueWeight(c, u, p) + (if Active(d, u, p) then Weight(d) else 0)
            && Joining(c', u, p) == Joining(c, u, p) + (if d.validator == u && d.start == p then Weight(d) else 0)
            && Leaving(c', u, p) == Leaving(c, u, p) + (if d.validator == u && d.end + 1 == p then Weight(d) else 0)
  {
    hide ActiveWeight, JoiningWeight, LeavingWeight;
    var ids, ds, ds' := c.delegations.Keys, c.delegations, c.delegations[id := d];
    assert ds'.Keys == ids + {id};
    SummandsJoined(ds, id, d, u, p);
    SumExtend(ids, id, ActiveWeight(ds, u, p), ActiveWeight(ds', u, p), if Active(d, u, p) then Weight(d) else 0);
    SumExtend(ids, id, JoiningWeight(ds, u, p), JoiningWeight(ds', u, p),
              if d.validator == u && d.start == p then Weight(d) else 0);
    SumExtend(ids, id, LeavingWeight(ds, u, p), LeavingWeight(ds', u, p),
              if d.validator == u && d.end + 1 == p then Weight(d) else 0);
  }

  lemma BookJoined(c: Chain, id: nat, d: Delegation)
    requires id !in c.delegations && d.end == U32_MAX
    ensures Joined(BookOf(c), BookOf(c.(delegations := c.delegations[id := d])), d.validator, d.start, Weight(d))
  {
    hide TrueWeight, Joining, Leaving, Weight;
    var c' := c.(delegations := c.delegations[id := d]);
    forall u: Address, p: nat
      ensures BookOf(c').joining(u, p) ==
                BookOf(c).joining(u, p) + (if u == d.validator && p == d.start then Weight(d) else 0)
      ensures p <= U32_MAX ==> BookOf(c').leaving(u, p) == BookOf(c).leaving(u, p)
      ensures u != d.validator || p < d.start ==> BookOf(c').active(u, p) == BookOf(c).active(u, p)
    {
      SumsJoined(c, id, d, u, p);
      BookAt(c, u, p);
      BookAt(c', u, p);
    }
  }

  /** The summands before and after the end of a delegation moves. */
  lemma SummandsLeft(ds: map<nat, Delegation>, id: nat, d': Delegation, u: Address, p: nat)
    requires id in ds && d' == ds[id].(end := d'.end)
    ensures var ds' := ds[id := d'];
            && (forall k | k in ds && k != id ::
                  ActiveWeight(ds', u, p)(k) == ActiveWeight(ds, u, p)(k)
                      && LeavingWeight(ds', u, p)(k) == LeavingWeight(ds, u, p)(k))
            && (forall k | k in ds :: JoiningWeight(ds', u, p)(k) == JoiningWeight(ds, u, p)(k))
            && ActiveWeight(ds', u, p)(id) == (if Active(d', u, p) then Weight(d') else 0)
            && ActiveWeight(ds, u, p)(id) == (if Active(ds[id], u, p) then Weight(ds[id]) else 0)
            && LeavingWeight(ds', u, p)(id) == (if d'.validator == u && d'.end + 1 == p then Weight(d') else 0)
            && LeavingWeight(ds, u, p)(id) ==
                (if ds[id].validator == u && ds[id].end + 1 == p then Weight(ds[id]) else 0)
  {
  }

  lemma SumsLeft(c: Chain, id: nat, d': Delegation, u: Address, p: nat)
    requires id in c.delegations && d' == c.delegations[id].(end := d'.end)
    ensures var c' := c.(delegations := c.delegations[id := d']);
            var d := c.delegations[id];
            && TrueWeight(c', u, p) == TrueWeight(c, u, p)
                 + (if Active(d', u, p) then Weight(d') else 0) - (if Active(d, u, p) then Weight(d) else 0)
            && Joining(c', u, p) == Joining(c, u, p)
            && Leaving(c', u, p) == Leaving(c, u, p)
                 + (if d'.validator == u && d'.end + 1 == p then Weight(d') else 0)
                 - (if d.validator == u && d.end + 1 == p then Weight(d) else 0)
  {
    hide ActiveWeight, JoiningWeight, LeavingWeight;
    var ids, ds, ds' := c.delegations.Keys, c.delegations, c.delegations[id := d'];
    assert ds'.Keys == ids;
    SummandsLeft(ds, id, d', u, p);
    SumShift(ids, id, ActiveWeight(ds, u, p), ActiveWeight(ds', u, p),
             ActiveWeight(ds', u, p)(id) - ActiveWeight(ds, u, p)(id));
    SumSame(ids, JoiningWeight(ds', u, p), JoiningWeight(ds, u, p));
    SumShift(ids, id, LeavingWeight(ds, u, p), LeavingWeight(ds', u, p),
             LeavingWeight(ds', u, p)(id) - LeavingWeight(ds, u, p)(id));
  }

  lemma BookLeft(c: Chain, id: nat, last: nat)
    requires id in c.delegations && c.delegations[id].end == U32_MAX && last < U32_MAX
    ensures var d := c.delegations[id];
            Left(BookOf(c), BookOf(c.(delegations := c.delegations[id := d.(end := last)])), d.validator, last,
                Weight(d))
  {
    hide TrueWeight, Joining, Leaving;
    var d := c.delegations[id];
    var c' := c.(delegations := c.delegations[id := d.(end := last)]);
    forall u: Address, p: nat
      ensures BookOf(c').joining(u, p) == BookOf(c).joining(u, p)
      ensures p <= U32_MAX ==>
                BookOf(c').leaving(u, p) ==
                    BookOf(c).leaving(u, p) + (if u == d.validator && p == last + 1 then Weight(d) else 0)
      ensures u != d.validator || p <= last ==> BookOf(c').active(u, p) == BookOf(c).active(u, p)
    {
      SumsLeft(c, id, d.(end := last), u, p);
      BookAt(c, u, p);
      BookAt(c', u, p);
    }
  }
}
