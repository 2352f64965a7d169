/** The badge evaluator at work: nested requests, ordered passes, the drain, and recognition of a first. */
module BadgeEvaluation {
  import opened Badges
  import opened Collections
  import opened Options

  datatype Note = Started(request: Request) | Asked(request: Request) | Paid(badge: Badge)

  /** A request noted in the log is answered by a pass that starts after it and covers all it covers. */
  ghost predicate Answered<World(!new)>(e: Engine<World>, log: seq<Note>, i: nat)
    requires i < |log| && log[i].Asked?
  {
    exists j | i < j < |log| && log[j].Started? :: e.Wider(log[j].request, log[i].request)
  }

  function Ids(badges: seq<Badge>): (r: seq<nat>)
    ensures |r| == |badges| && forall k | 0 <= k < |r| :: r[k] == badges[k].id
  {
    seq(|badges|, k requires 0 <= k < |badges| => badges[k].id)
  }

  /** The account after paying these badges in order. */
  function PaidOut<World>(e: Engine<World>, w: World, badges: seq<Badge>): World {
    if badges == [] then w else e.pay(PaidOut(e, w, badges[..|badges| - 1]), badges[|badges| - 1])
  }

  /** Each badge qualified in the account its predecessors left. */
  predicate Genuine<World>(e: Engine<World>, w: World, badges: seq<Badge>) {
    badges == []
    || (Genuine(e, w, badges[..|badges| - 1]) && e.Check(PaidOut(e, w, badges[..|badges| - 1]), badges[|badges| - 1]))
  }

  lemma OneMoreIsGenuine<World>(e: Engine<World>, w: World, badges: seq<Badge>, b: Badge)
    requires Genuine(e, w, badges) && e.Check(PaidOut(e, w, badges), b)
    ensures Genuine(e, w, badges + [b]) && PaidOut(e, w, badges + [b]) == e.pay(PaidOut(e, w, badges), b)
  {
  }

  lemma {:induction false} MoreAreGenuine<World>(e: Engine<World>, w: World, badges: seq<Badge>, more: seq<Badge>)
    requires Genuine(e, w, badges) && Genuine(e, PaidOut(e, w, badges), more)
    ensures Genuine(e, w, badges + more) && PaidOut(e, w, badges + more) == PaidOut(e, PaidOut(e, w, badges), more)
  {
    if more == [] {
      assert badges + more == badges;
    } else {
      var less, b := more[..|more| - 1], more[|more| - 1];
      MoreAreGenuine(e, w, badges, less);
      OneMoreIsGenuine(e, w, badges + less, b);
      assert badges + more == badges + less + [b];
    }
  }

  /** From one account to another by paying exactly `newly`: unearned, genuinely qualified, each marked and recorded. */
  ghost predicate Progressed<World>(
      e: Engine<World>, w: World, earned: set<nat>, paid: seq<nat>,
      w': World, earned': set<nat>, paid': seq<nat>, newly: seq<Badge>) {
    && (forall b | b in newly :: b in e.catalog && b.id !in earned)
    && Genuine(e, w, newly) && w' == PaidOut(e, w, newly)
    && earned' == earned + (set id | id in Ids(newly)) && paid' == paid + Ids(newly)
  }

  lemma ProgressAddsUp<World>(
      e: Engine<World>, w: World, earned: set<nat>, paid: seq<nat>, newly: seq<Badge>,
      w': World, earned': set<nat>, paid': seq<nat>, more: seq<Badge>,
      w'': World, earned'': set<nat>, paid'': seq<nat>)
    requires Progressed(e, w, earned, paid, w', earned', paid', newly)
    requires Progressed(e, w', earned', paid', w'', earned'', paid'', more)
    ensures Progressed(e, w, earned, paid, w'', earned'', paid'', newly + more)
  {
    MoreAreGenuine(e, w, newly, more);
    IdsAddUp(newly, more, earned, paid);
  }

  lemma IdsAddUp(newly: seq<Badge>, more: seq<Badge>, earned: set<nat>, paid: seq<nat>)
    ensures Ids(newly + more) == Ids(newly) + Ids(more)
    ensures paid + Ids(newly) + Ids(more) == paid + Ids(newly + more)
    ensures earned + (set id | id in Ids(newly)) + (set id | id in Ids(more))
      == earned + (set id | id in Ids(newly + more))
  {
  }

  const FIRST_LEGENDARY := "first_legendary_badge"

  predicate IsRecognised(b: Badge, fails: set<nat>) {
    b.legendary && b.id !in fails
  }

  /** One user's evaluation: `pending` is present exactly while a drain is running. */
  class Evaluation<World(!new)> {
    const engine: Engine<World>
    var world: World
    var earned: set<nat>
    var firsts: set<string>
    var pending: seq<Request>
    ghost var log: seq<Note>
    ghost var paid: seq<nat>

    /** The queue holds at most one request; every badge ever paid is marked earned and was paid once. */
    ghost predicate Valid()
      reads this
    {
      && engine.DistinctIds()
      && |pending| <= 1
      && (forall r | r in pending :: Normal(r) == r)
      && NoRepeats(paid)
      && (forall id | id in paid :: id in earned)
      && (forall i | 0 <= i < |log| && log[i].Asked? ::
            Answered(engine, log, i) || exists r | r in pending :: engine.Wider(r, log[i].request))
    }

    constructor (engine: Engine<World>, world: World, earned: set<nat>, firsts: set<string>)
      requires engine.DistinctIds()
      ensures Valid() && this.engine == engine && this.world == world && this.earned == earned && this.firsts == firsts
      ensures pending == [] && log == [] && paid == []
    {
      this.engine, this.world, this.earned, this.firsts := engine, world, earned, firsts;
      pending, log, paid := [], [], [];
    }

    /** A re-entrant `evaluate_badges`: fold the request into the queue of the running drain. */
    method Ask(r: Request)
      requires Valid()
      modifies this`pending, this`log
      ensures Valid() && pending == Coalesce(old(pending), Normal(r)) && |pending| == 1
      ensures log == old(log) + [Asked(Normal(r))]
      ensures forall b :: engine.Covered(pending, b) <==> engine.Covered(old(pending), b) || engine.Covers(Normal(r), b)
    {
      var asked := Normal(r);
      ghost var was := pending;
      forall b ensures engine.Covered(Coalesce(was, asked), b) <==> engine.Covered(was, b) || engine.Covers(asked, b) {
        CoalesceIsUnion(engine, was, asked, b);
      }
      CoalesceIsUnion(engine, was, asked, Badge(0, "", false));
      pending := Coalesce(pending, asked);
      log := log + [Asked(asked)];
      assert pending == [pending[0]];
      StillAnswered(old(log), was, asked);
    }

    lemma StillAnswered(before: seq<Note>, was: seq<Request>, asked: Request)
      requires |pending| == 1 && log == before + [Asked(asked)]
      requires forall b :: engine.Covered(pending, b) <==> engine.Covered(was, b) || engine.Covers(asked, b)
      requires forall i | 0 <= i < |before| && before[i].Asked? ::
                 Answered(engine, before, i) || exists r | r in was :: engine.Wider(r, before[i].request)
      ensures forall i | 0 <= i < |log| && log[i].Asked? ::
                Answered(engine, log, i) || exists r | r in pending :: engine.Wider(r, log[i].request)
    {
      assert forall b :: engine.Covered(pending, b) <==> engine.Covers(pending[0], b) by {
        assert pending == [pending[0]];
      }
      forall i | 0 <= i < |log| && log[i].Asked?
        ensures Answered(engine, log, i) || engine.Wider(pending[0], log[i].request)
      {
        if i < |before| {
          if Answered(engine, before, i) {
            var j :| i < j < |before| && before[j].Started? && engine.Wider(before[j].request, before[i].request);
            assert log[j] == before[j] && log[i] == before[i];
          } else {
            var r :| r in was && engine.Wider(r, before[i].request);
            assert forall b :: engine.Covers(r, b) ==> engine.Covered(was, b);
            assert engine.Wider(pending[0], log[i].request);
          }
        }
      }
    }

    /** Take the only pending request; the pass that now starts answers every request folded into it. */
    method Pop() returns (r: Request)
      requires Valid() && pending != []
      modifies this`pending, this`log
      ensures Valid() && pending == [] && old(pending) == [r] && log == old(log) + [Started(r)]
    {
      r := pending[0];
      pending := [];
      log := log + [Started(r)];
      assert old(pending) == [r];
      forall i | 0 <= i < |log| && log[i].Asked? ensures Answered(engine, log, i) {
        assert log[i] == old(log)[i];
        if Answered(engine, old(log), i) {
          var j :| i < j < |old(log)| && old(log)[j].Started? && engine.Wider(old(log)[j].request, log[i].request);
          assert log[j] == old(log)[j];
        } else {
          assert log[|log| - 1] == Started(r) && engine.Wider(r, log[i].request);
        }
      }
    }

    /** The unique earned marker, the payouts, and the evaluations they request. */
    method Award(b: Badge)
      requires Valid() && b.id !in earned
      modifies this
      ensures Valid() && world == engine.pay(old(world), b) && earned == old(earned) + {b.id} && firsts == old(firsts)
      ensures paid == old(paid) + [b.id] && pending == Folded(old(pending), engine.asks(old(world), b))
      ensures forall c | engine.Covered(old(pending), c) :: engine.Covered(pending, c)
      ensures forall r, c | r in engine.asks(old(world), b) && engine.Covers(Normal(r), c) :: engine.Covered(pending, c)
    {
      var asks := engine.asks(world, b);
      earned := earned + {b.id};
      paid := paid + [b.id];
      world := engine.pay(world, b);
      for i := 0 to |asks|
        invariant Valid() && world == engine.pay(old(world), b) && earned == old(earned) + {b.id}
        invariant paid == old(paid) + [b.id] && firsts == old(firsts) && pending == Folded(old(pending), asks[..i])
        invariant forall c | engine.Covered(old(pending), c) :: engine.Covered(pending, c)
        invariant forall k, c | 0 <= k < i && engine.Covers(Normal(asks[k]), c) :: engine.Covered(pending, c)
      {
        assert asks[..i + 1][..i] == asks[..i];
        Ask(asks[i]);
      }
      assert asks[..|asks|] == asks;
    }

    ghost function Now(): Account<World> reads this {
      Account(world, earned, pending)
    }

    /** One selected badge: checked again, because its predecessors may have changed the account. */
    method Visit(b: Badge) returns (got: bool)
      requires Valid() && b in engine.catalog
      modifies this
      ensures Valid() && firsts == old(firsts) && Now() == Turn(engine, old(Now()), b)
      ensures !got ==> Now() == old(Now()) && paid == old(paid)
      ensures got ==> Progressed(engine, old(world), old(earned), old(paid), world, earned, paid, [b])
    {
      got := engine.Check(world, b) && b.id !in earned;
      if got {
        Award(b);
        OneAwardIsProgress(old(world), old(earned), old(paid), b);
      }
    }

    /** A pass over `selected` from `start` that has awarded `newly` and has the badges from `i` on before it. */
    ghost predicate IsVisited(start: Account<World>, receipts: seq<nat>, selected: seq<Badge>, i: nat,
        newly: seq<Badge>)
      reads this
    {
      && i <= |selected| && Valid() && (newly == [] ==> pending == start.pending)
      && PassOver(engine, Now(), selected[i..]) == PassOver(engine, start, selected)
      && Progressed(engine, start.world, start.earned, receipts, world, earned, paid, newly)
    }

    method VisitNext(ghost start: Account<World>, ghost receipts: seq<nat>, selected: seq<Badge>, i: nat,
        newly: seq<Badge>)
      returns (longer: seq<Badge>)
      requires i < |selected| && selected[i] in engine.catalog && IsVisited(start, receipts, selected, i, newly)
      modifies this
      ensures IsVisited(start, receipts, selected, i + 1, longer) && firsts == old(firsts)
    {
      var b := selected[i];
      assert selected[i..] == [b] + selected[i + 1..];
      PassOverOneMore(engine, Now(), b, selected[i + 1..]);
      var got := Visit(b);
      longer := newly;
      if got {
        ProgressAddsUp(engine, start.world, start.earned, receipts, newly,
                       old(world), old(earned), old(paid), [b], world, earned, paid);
        longer := newly + [b];
      }
    }

    /** One ordered pass over the badges selected when it began. */
    method Pass(request: Request) returns (newly: seq<Badge>)
      requires Valid() && pending == []
      modifies this
      ensures Valid() && firsts == old(firsts) && (newly == [] ==> pending == [])
      ensures Now() == PassOver(engine, old(Now()), Selected(engine, old(earned), request))
      ensures Progressed(engine, old(world), old(earned), old(paid), world, earned, paid, newly)
    {
      var selected := Selected(engine, earned, request);
      newly := [];
      assert selected[0..] == selected;
      for i := 0 to |selected|
        invariant IsVisited(old(Now()), old(paid), selected, i, newly) && firsts == old(firsts)
      {
        newly := VisitNext(old(Now()), old(paid), selected, i, newly);
      }
      assert selected[|selected|..] == [];
    }

    lemma OneAwardIsProgress(w: World, before: set<nat>, receipts: seq<nat>, b: Badge)
      requires b in engine.catalog && b.id !in before && engine.Check(w, b)
      requires world == engine.pay(w, b) && earned == before + {b.id} && paid == receipts + [b.id]
      ensures Progressed(engine, w, before, receipts, world, earned, paid, [b])
    {
    }

    /**
     * The drain: passes until no request is pending. It returns exactly the badges it newly marked, each once,
     * in at most one pass more than there are such badges, and every request made on the way is answered.
     */
    method Drain(request: Request) returns (newly: seq<Badge>, ghost passes: nat)
      requires Valid() && pending == []
      modifies this
      ensures Valid() && pending == [] && firsts == old(firsts) && passes <= |newly| + 1
      ensures Now() == Drained(engine, Account(old(world), old(earned), [Normal(request)]))
      ensures Progressed(engine, old(world), old(earned), old(paid), world, earned, paid, newly)
      ensures forall i | 0 <= i < |log| && log[i].Asked? :: Answered(engine, log, i)
    {
      newly, passes := [], 0;
      pending := [Normal(request)];
      ghost var start := Now();
      while pending != []
        invariant Valid() && firsts == old(firsts) && passes + |pending| <= |newly| + 1
        invariant Drained(engine, Now()) == Drained(engine, start)
        invariant Progressed(engine, old(world), old(earned), old(paid), world, earned, paid, newly)
        decreases CatalogIds(engine) - earned, |pending|
      {
        var more := Round(old(Now()), old(paid), newly);
        newly := newly + more;
        passes := passes + 1;
      }
    }

    /** One turn of a drain loop that started from `start` and has awarded `newly`. */
    method Round(ghost start: Account<World>, ghost receipts: seq<nat>, newly: seq<Badge>) returns (more: seq<Badge>)
      requires Valid() && pending != []
      requires Progressed(engine, start.world, start.earned, receipts, world, earned, paid, newly)
      modifies this
      ensures Valid() && firsts == old(firsts) && (more == [] ==> pending == [])
      ensures Drained(engine, Now()) == Drained(engine, old(Now()))
      ensures Progressed(engine, start.world, start.earned, receipts, world, earned, paid, newly + more)
      ensures CatalogIds(engine) - earned <= CatalogIds(engine) - old(earned)
      ensures more != [] ==> CatalogIds(engine) - earned != CatalogIds(engine) - old(earned)
    {
      var next := Pop();
      more := Pass(next);
      assert old(pending)[1..] == [];
      ProgressAddsUp(engine, start.world, start.earned, receipts, newly,
                     old(world), old(earned), old(paid), more, world, earned, paid);
      if more != [] {
        assert Ids(more)[0] == more[0].id && more[0] in engine.catalog;
        assert more[0].id in CatalogIds(engine) - old(earned);
      }
    }

    /**
     * `evaluate_badges` outside any drain: drain, then recognise a first legendary badge, which evaluates again.
     * Recognition is optional: for the badges in `fails` it raises, is rolled back and leaves nothing behind.
     */
    method EvaluateBadges(request: Request, fails: set<nat>) returns (newly: seq<Badge>)
      requires Valid() && pending == []
      modifies this
      ensures Valid() && pending == []
      ensures firsts == old(firsts) + if exists b | b in newly :: IsRecognised(b, fails) then {FIRST_LEGENDARY} else {}
      ensures old(paid) + Ids(newly) <= paid && earned == old(earned) + (set id | id in paid)
      ensures Genuine(engine, old(world), newly) && forall b | b in newly :: b in engine.catalog && b.id !in old(earned)
      ensures IsSafe() && NothingIsLost(engine, old(world), old(earned), [Normal(request)], []) ==>
                Saturated(engine, world, earned)
      decreases FIRST_LEGENDARY !in firsts, 2
    {
      ghost var passes;
      newly, passes := Drain(request);
      DrainMarksWhatItPaid(old(world), old(earned), old(paid), newly);
      if IsSafe() && NothingIsLost(engine, old(world), old(earned), [Normal(request)], []) {
        SeenGainsSaturate(engine, Account(old(world), old(earned), [Normal(request)]));
      }
      RecogniseAll(newly, fails);
    }

    /** Every gain of a payout is seen, and a saved first announces what it qualifies. */
    ghost predicate IsSafe() {
      GainsAreSeen(engine) && FirstsAnnounce(engine)
    }

    /** `safe_record_firsts` for every legendary badge of the drain. */
    method RecogniseAll(newly: seq<Badge>, fails: set<nat>)
      requires Valid() && pending == []
      modifies this
      ensures Valid() && pending == []
      ensures firsts == old(firsts) + if exists b | b in newly :: IsRecognised(b, fails) then {FIRST_LEGENDARY} else {}
      ensures old(paid) <= paid && (earned == old(earned) + set id | id in paid)
      ensures IsSafe() && Saturated(engine, old(world), old(earned)) ==> Saturated(engine, world, earned)
      decreases FIRST_LEGENDARY !in firsts, 1
    {
      ghost var safe := IsSafe() && Saturated(engine, world, earned);
      for i := 0 to |newly|
        invariant Valid() && pending == []
        invariant firsts == old(firsts)
          + if exists b | b in newly[..i] :: IsRecognised(b, fails) then {FIRST_LEGENDARY} else {}
        invariant old(paid) <= paid && (earned == old(earned) + set id | id in paid)
        invariant safe ==> Saturated(engine, world, earned)
      {
        assert newly[..i + 1] == newly[..i] + [newly[i]];
        if IsRecognised(newly[i], fails) {
          RecordFirstLegendary(fails);
        }
      }
      assert newly[..|newly|] == newly;
    }

    lemma DrainMarksWhatItPaid(w: World, before: set<nat>, receipts: seq<nat>, newly: seq<Badge>)
      requires Progressed(engine, w, before, receipts, world, earned, paid, newly)
      requires forall id | id in receipts :: id in before
      ensures earned == before + (set id | id in paid)
    {
    }

    /** A saved slug is never saved again, which is why recognition and evaluation cannot call each other forever. */
    method RecordFirstLegendary(fails: set<nat>)
      requires Valid() && pending == []
      modifies this
      ensures Valid() && pending == [] && firsts == old(firsts) + {FIRST_LEGENDARY}
      ensures old(paid) <= paid && earned == old(earned) + (set id | id in paid)
      ensures IsSafe() && Saturated(engine, old(world), old(earned)) ==> Saturated(engine, world, earned)
      decreases FIRST_LEGENDARY !in firsts, 0
    {
      if FIRST_LEGENDARY in firsts {
        return;
      }
      firsts := firsts + {FIRST_LEGENDARY};
      world := engine.saveFirst(world);
      FirstScopesAreSome();
      if IsSafe() && Saturated(engine, old(world), earned) {
        assert Some(FIRST_SCOPES) in [Some(FIRST_SCOPES)];
        assert NothingIsLost(engine, world, earned, [Some(FIRST_SCOPES)], []);
      }
      var again := EvaluateBadges(Some(FIRST_SCOPES), fails);
    }
  }

  lemma FirstScopesAreSome()
    ensures Normal(Some(FIRST_SCOPES)) == Some(FIRST_SCOPES)
  {
  }
}
