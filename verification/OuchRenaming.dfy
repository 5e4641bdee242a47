/** A batch of replaces is a renaming of the book: a loop over a map that swaps entries and defers erasures does to
    every order what following its own chain of tokens does. */
module OuchRenaming {
  import opened Bytes
  import opened OuchOrders
  import opened Ouch

  /** Where one order is, how it looks, the replaces that brought it there, and whether a further one closed it. */
  datatype Trail = Trail(key: Token, order: OuchOrder, chain: seq<ReplaceOrder>, closed: bool)

  function Begin(k: Token, o: OuchOrder): Trail {
    Trail(k, o, [], false)
  }

  function Follow(t: Trail, ro: ReplaceOrder): Trail {
    if t.closed || ro.existing != t.key then t
    else if Closes(ro, t.order) then t.(closed := true)
    else Trail(ro.token, Renewed(ro, t.order), t.chain + [ro], false)
  }

  /** The chain of one order through the batch, without any book. */
  function FollowAll(t: Trail, reqs: seq<ReplaceOrder>): Trail {
    if reqs == [] then t
    else
      var n := |reqs| - 1;
      Follow(FollowAll(t, reqs[..n]), reqs[n])
  }

  function TrailOf(b: Book, reqs: seq<ReplaceOrder>, k: Token): Trail
    requires k in b
  {
    FollowAll(Begin(k, b[k]), reqs)
  }

  /** Each replace of the chain names the token that the one before it gave. */
  predicate Linked(chain: seq<ReplaceOrder>, k: Token) {
    && (chain != [] ==> chain[0].existing == k)
    && forall i :: 0 < i < |chain| ==> chain[i].existing == chain[i - 1].token
  }

  /** What order `o` has to look like at the end of the chain. */
  predicate EndsAs(t: Trail, k: Token, o: OuchOrder) {
    if t.chain == [] then t.key == k && t.order == o
    else
      var ro := t.chain[|t.chain| - 1];
      && t.key == ro.token
      && ro.qty <= MAX_SHARES && o.executed < ro.qty
      && t.order == o.(token := ro.token, remaining := ro.qty - o.executed, timeInForce := ro.timeInForce,
                       remainTimeInForce := I32(ro.timeInForce), price := ro.price, sweep := ro.sweep)
  }

  lemma BeginEnds(k: Token, o: OuchOrder)
    ensures EndsAs(Begin(k, o), k, o) && Linked(Begin(k, o).chain, k)
  {
  }

  lemma FollowEnds(t: Trail, ro: ReplaceOrder, k: Token, o: OuchOrder)
    requires EndsAs(t, k, o) && Linked(t.chain, k)
    ensures EndsAs(Follow(t, ro), k, o) && Linked(Follow(t, ro).chain, k)
    ensures t == Begin(k, o) && ro.existing != k ==> Follow(t, ro) == t
  {
    hide I32;
    var n, longer := |t.chain|, t.chain + [ro];
    assert t.key == if n == 0 then k else t.chain[n - 1].token;
    if ro.existing == t.key {
      forall i | 0 < i <= n
        ensures longer[i].existing == longer[i - 1].token
      {
        assert i < n ==> longer[i] == t.chain[i];
        assert longer[i - 1] == t.chain[i - 1];
      }
      assert Linked(longer, k);
    }
  }

  /** Along its chain an order keeps what identifies it, its symbol, its side and what was executed; token, quantity,
      price and time in force are those of the last replace, and the chain leads from its first token to its last. */
  lemma {:induction false} TrailKeepsOrder(b: Book, reqs: seq<ReplaceOrder>, k: Token)
    requires k in b
    ensures EndsAs(TrailOf(b, reqs, k), k, b[k]) && Linked(TrailOf(b, reqs, k).chain, k)
    ensures (forall i :: 0 <= i < |reqs| ==> reqs[i].existing != k) ==> TrailOf(b, reqs, k) == Begin(k, b[k])
  {
    hide EndsAs, Linked, Follow;
    if reqs == [] {
      BeginEnds(k, b[k]);
    } else {
      var n := |reqs| - 1;
      TrailKeepsOrder(b, reqs[..n], k);
      FollowEnds(TrailOf(b, reqs[..n], k), reqs[n], k, b[k]);
    }
  }

  /** New tokens are new to the book and pairwise distinct, existing tokens are named once each. */
  ghost predicate FreshBatch(b: Book, reqs: seq<ReplaceOrder>) {
    && (forall i :: 0 <= i < |reqs| ==> reqs[i].token !in b)
    && (forall i, j :: 0 <= i < j < |reqs| ==> reqs[i].token != reqs[j].token)
    && (forall i, j :: 0 <= i < j < |reqs| ==> reqs[i].existing != reqs[j].existing)
  }

  function NewTokens(reqs: seq<ReplaceOrder>): set<Token> {
    set i | 0 <= i < |reqs| :: reqs[i].token
  }

  function ExistingTokens(reqs: seq<ReplaceOrder>): set<Token> {
    set i | 0 <= i < |reqs| :: reqs[i].existing
  }

  lemma {:induction false} TrailEndsKnown(t: Trail, reqs: seq<ReplaceOrder>)
    ensures FollowAll(t, reqs).key in {t.key} + NewTokens(reqs)
  {
    if reqs != [] {
      var n := |reqs| - 1;
      TrailEndsKnown(t, reqs[..n]);
      assert NewTokens(reqs) == NewTokens(reqs[..n]) + {reqs[n].token};
    }
  }

  /** In the middle of the batch: every order sits where its trail says, the closed ones await erasure. */
  ghost predicate Placed(p: Phase, b: Book, reqs: seq<ReplaceOrder>, k: Token) {
    k in b ==>
      var t := TrailOf(b, reqs, k);
      t.key in p.active && p.active[t.key] == t.order && (t.closed <==> t.key in p.done)
  }

  /** Every entry of the book is the end of some order's trail. */
  ghost predicate Sourced(p: Phase, b: Book, reqs: seq<ReplaceOrder>, key: Token) {
    key in p.active ==> exists k :: k in b && TrailOf(b, reqs, k).key == key
  }

  ghost predicate Apart(b: Book, reqs: seq<ReplaceOrder>, k1: Token, k2: Token) {
    k1 in b && k2 in b && k1 != k2 ==> TrailOf(b, reqs, k1).key != TrailOf(b, reqs, k2).key
  }

  ghost predicate Renamed(p: Phase, b: Book, reqs: seq<ReplaceOrder>) {
    && (forall k :: Placed(p, b, reqs, k))
    && (forall key :: Sourced(p, b, reqs, key))
    && (forall k1, k2 :: Apart(b, reqs, k1, k2))
    && p.done <= p.active.Keys * ExistingTokens(reqs)
  }

  lemma StepFacts(q: Phase, b: Book, reqs: seq<ReplaceOrder>, k0: Token)
    requires reqs != [] && FreshBatch(b, reqs) && Renamed(q, b, reqs[..|reqs| - 1])
    requires k0 in b && TrailOf(b, reqs[..|reqs| - 1], k0).key == reqs[|reqs| - 1].existing
    ensures !TrailOf(b, reqs[..|reqs| - 1], k0).closed
    ensures reqs[|reqs| - 1].token !in q.active
    ensures forall k :: k in b && k != k0 ==> TrailOf(b, reqs, k) == TrailOf(b, reqs[..|reqs| - 1], k)
    ensures forall k :: k in b && k != k0 ==>
              TrailOf(b, reqs, k).key !in [reqs[|reqs| - 1].existing, reqs[|reqs| - 1].token]
  {
    var n := |reqs| - 1;
    var ro := reqs[n];
    assert ro.existing !in ExistingTokens(reqs[..n]);
    assert Placed(q, b, reqs[..n], k0);
    assert ro.token !in NewTokens(reqs[..n]);
    if ro.token in q.active {
      assert Sourced(q, b, reqs[..n], ro.token);
      var k :| k in b && TrailOf(b, reqs[..n], k).key == ro.token;
      TrailEndsKnown(Begin(k, b[k]), reqs[..n]);
      assert false;
    }
    forall k | k in b && k != k0
      ensures TrailOf(b, reqs, k) == TrailOf(b, reqs[..n], k)
              && TrailOf(b, reqs, k).key !in [ro.existing, ro.token]
    {
      assert Apart(b, reqs[..n], k, k0);
      TrailEndsKnown(Begin(k, b[k]), reqs[..n]);
    }
  }

  lemma RenameStep(q: Phase, b: Book, reqs: seq<ReplaceOrder>, junk: OuchOrder)
    requires reqs != [] && FreshBatch(b, reqs) && Renamed(q, b, reqs[..|reqs| - 1])
    requires reqs[|reqs| - 1].existing in q.active
    ensures Renamed(ReplaceStep(q, reqs[|reqs| - 1], junk), b, reqs)
  {
    hide Renewed, Closes, ReplacedMessage;
    var n := |reqs| - 1;
    var ro := reqs[n];
    var r := ReplaceStep(q, ro, junk);
    assert Sourced(q, b, reqs[..n], ro.existing);
    var k0 :| k0 in b && TrailOf(b, reqs[..n], k0).key == ro.existing;
    StepFacts(q, b, reqs, k0);
    assert Placed(q, b, reqs[..n], k0);
    assert ExistingTokens(reqs) == ExistingTokens(reqs[..n]) + {ro.existing};
    forall k ensures Placed(r, b, reqs, k) {
      assert Placed(q, b, reqs[..n], k);
    }
    forall key ensures Sourced(r, b, reqs, key) {
      assert Sourced(q, b, reqs[..n], key);
      if key in r.active {
        if key == TrailOf(b, reqs, k0).key {
        } else {
          var k :| k in b && TrailOf(b, reqs[..n], k).key == key;
          assert TrailOf(b, reqs, k).key == key;
        }
      }
    }
    forall k1, k2 ensures Apart(b, reqs, k1, k2) {
      assert Apart(b, reqs[..n], k1, k2);
    }
  }

  lemma NothingRenamed(p: Phase)
    requires p.done == {}
    ensures Renamed(p, p.active, [])
  {
    forall key ensures Sourced(p, p.active, [], key) {
      if key in p.active {
        assert TrailOf(p.active, [], key).key == key;
      }
    }
  }

  lemma PrefixIsFresh(b: Book, reqs: seq<ReplaceOrder>)
    requires reqs != [] && FreshBatch(b, reqs)
    ensures FreshBatch(b, reqs[..|reqs| - 1])
  {
  }

  lemma PrefixIsLive(p: Phase, reqs: seq<ReplaceOrder>, junk: Junk)
    requires reqs != [] && ReplacesLive(p, reqs, junk)
    ensures ReplacesLive(p, reqs[..|reqs| - 1], junk)
  {
    hide ReplaceAllOf;
    var n := |reqs| - 1;
    forall i | 0 <= i < n
      ensures reqs[..n][i].existing in ReplaceAllOf(p, reqs[..n][..i], junk).active
    {
      assert reqs[..n][..i] == reqs[..i];
    }
  }

  lemma {:induction false} BatchRenames(p: Phase, reqs: seq<ReplaceOrder>, junk: Junk)
    requires p.done == {} && FreshBatch(p.active, reqs) && ReplacesLive(p, reqs, junk)
    ensures Renamed(ReplaceAllOf(p, reqs, junk), p.active, reqs)
  {
    hide Renamed, ReplaceStep, FreshBatch;
    if reqs == [] {
      NothingRenamed(p);
    } else {
      var n := |reqs| - 1;
      var q := ReplaceAllOf(p, reqs[..n], junk);
      PrefixIsFresh(p.active, reqs);
      PrefixIsLive(p, reqs, junk);
      BatchRenames(p, reqs[..n], junk);
      RenameStep(q, p.active, reqs, junk(n));
    }
  }

  /** The pass as a whole: the new book holds exactly the orders no replace closed, each under the end of its chain
      and looking as the chain says; different orders end under different tokens. */
  lemma ReplaceLogicRenames(s: Session, m: Manager, junk: Junk)
    requires FreshBatch(s.active, s.pendingReplace) && ReplacesLive(Start(s, m), s.pendingReplace, junk)
    ensures var b := ReplaceLogic(s, m, junk).s.active;
            && (forall k {:trigger TrailOf(s.active, s.pendingReplace, k)} :: k in s.active ==>
                  var t := TrailOf(s.active, s.pendingReplace, k);
                  if t.closed then t.key !in b else t.key in b && b[t.key] == t.order)
            && (forall key :: key in b ==>
                  exists k :: k in s.active && TrailOf(s.active, s.pendingReplace, k).key == key)
            && (forall k1, k2 :: k1 in s.active && k2 in s.active && k1 != k2 ==>
                  TrailOf(s.active, s.pendingReplace, k1).key != TrailOf(s.active, s.pendingReplace, k2).key)
  {
    hide TrailOf;
    var p, reqs := Start(s, m), s.pendingReplace;
    BatchRenames(p, reqs, junk);
    var r := ReplaceAllOf(p, reqs, junk);
    forall k | k in s.active
      ensures var t := TrailOf(s.active, reqs, k);
              if t.closed then t.key !in r.active - r.done
              else t.key in r.active - r.done && (r.active - r.done)[t.key] == t.order
    {
      assert Placed(r, s.active, reqs, k);
    }
    forall key | key in r.active - r.done
      ensures exists k :: k in s.active && TrailOf(s.active, reqs, k).key == key
    {
      assert Sourced(r, s.active, reqs, key);
    }
    forall k1, k2 | k1 in s.active && k2 in s.active && k1 != k2
      ensures TrailOf(s.active, reqs, k1).key != TrailOf(s.active, reqs, k2).key
    {
      assert Apart(s.active, reqs, k1, k2);
    }
  }
}
