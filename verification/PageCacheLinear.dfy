/** Linearization of the sample reads: each hit has an instant in its run. */
module PageCacheLinear {
  import opened Words
  import opened PageCache
  import opened PageCacheSafety
  import opened PageCacheTheorems
  import opened PageCacheDrain

  /** Before its j-th action the run was about to check address a, found its page ready, and c
      is the truth of that moment. */
  ghost predicate CheckedAt(s0: State, actions: seq<Action>, j: nat, a: nat, c: Check)
    requires InRange(s0)
  {
    j <= |actions| && a < CHIP_LIMIT
    && var s := Run(s0, actions[..j]);
       && s.renderer == CheckPage(a) && s.meta[PageOf(a)].st == Ready
       && c == Check(s.shadow[a], s.ram[a], WritePending(s.writer, PageOf(a)))
  }

  ghost predicate Checked(s0: State, actions: seq<Action>, a: nat, c: Check)
    requires InRange(s0)
  {
    exists j :: CheckedAt(s0, actions, j, a, c)
  }

  /** Every hit so far, and the read past its check, was checked at some instant of the run. */
  ghost predicate Witnessed(s0: State, actions: seq<Action>)
    requires InRange(s0)
  {
    var s := Run(s0, actions);
    && (forall k :: 0 <= k < |s.history| && s.history[k].Hit? ==>
          Checked(s0, actions, s.history[k].address, s.history[k].check))
    && (s.renderer.LoadShadow? ==> Checked(s0, actions, s.renderer.address, s.renderer.check))
    && (Warming(s.renderer) ==> Checked(s0, actions, s.renderer.caller.address, s.renderer.caller.check))
  }

  lemma CheckedStays(s0: State, actions: seq<Action>, next: Action, a: nat, c: Check)
    requires InRange(s0) && Checked(s0, actions, a, c)
    ensures Checked(s0, actions + [next], a, c)
  {
    var j: nat :| CheckedAt(s0, actions, j, a, c);
    assert (actions + [next])[..j] == actions[..j];
    assert CheckedAt(s0, actions + [next], j, a, c);
  }

  lemma CheckedNow(s0: State, actions: seq<Action>, next: Action, a: nat, c: Check)
    requires InRange(s0) && a < CHIP_LIMIT
    requires var s := Run(s0, actions);
             && s.renderer == CheckPage(a) && s.meta[PageOf(a)].st == Ready
             && c == Check(s.shadow[a], s.ram[a], WritePending(s.writer, PageOf(a)))
    ensures Checked(s0, actions + [next], a, c)
  {
    assert (actions + [next])[..|actions|] == actions;
    assert CheckedAt(s0, actions + [next], |actions|, a, c);
  }

  /** A hit is recorded by the load of a checked byte, with the check it carried. */
  lemma HitCarriesCheck(s: State)
    requires InRange(s) && |RendererNext(s).history| == |s.history| + 1
    ensures var r := RendererNext(s).history[|s.history|];
            r.Hit? ==> s.renderer.LoadShadow? && r.address == s.renderer.address && r.check == s.renderer.check
  {
  }

  /** A read past its check carries it on from where it was made. */
  lemma CheckIsCarried(s: State)
    requires InRange(s)
    ensures var r, r' := s.renderer, RendererNext(s).renderer;
            && (r'.LoadShadow? && !r.CheckPage? ==>
                  Warming(r) && r'.address == r.caller.address && r'.check == r.caller.check)
            && (Warming(r') && !r.CheckPage? ==> Warming(r) && r'.caller == r.caller)
  {
  }

  lemma CheckIsMade(s: State)
    requires InRange(s) && s.renderer.CheckPage?
    ensures var a, r' := s.renderer.address, RendererNext(s).renderer;
            var c := Check(s.shadow[a], s.ram[a], WritePending(s.writer, PageOf(a)));
            && (r'.LoadShadow? ==> s.meta[PageOf(a)].st == Ready && r' == LoadShadow(a, c))
            && (Warming(r') ==> s.meta[PageOf(a)].st == Ready && r'.caller == FromHit(a, c))
  {
  }

  lemma WitnessedByRenderer(s0: State, actions: seq<Action>)
    requires InRange(s0) && Witnessed(s0, actions)
    ensures Witnessed(s0, actions + [RendererStep])
  {
    var s, next := Run(s0, actions), RendererStep;
    RunExtends(s0, actions, next);
    var s' := RendererNext(s);
    RendererRecords(s);
    CheckIsCarried(s);
    if s.renderer.CheckPage? {
      CheckIsMade(s);
    }
    forall a, c | Checked(s0, actions, a, c)
      ensures Checked(s0, actions + [next], a, c)
    {
      CheckedStays(s0, actions, next, a, c);
    }
    if s.renderer.CheckPage? && (s'.renderer.LoadShadow? || Warming(s'.renderer)) {
      var a := s.renderer.address;
      CheckedNow(s0, actions, next, a, Check(s.shadow[a], s.ram[a], WritePending(s.writer, PageOf(a))));
    }
    HitsCarryChecks(s0, actions, s);
  }

  lemma HitsCarryChecks(s0: State, actions: seq<Action>, s: State)
    requires InRange(s0) && Witnessed(s0, actions) && s == Run(s0, actions)
    ensures var h := RendererNext(s).history;
            forall k :: 0 <= k < |h| && h[k].Hit? ==> Checked(s0, actions + [RendererStep], h[k].address, h[k].check)
  {
    var h := RendererNext(s).history;
    RendererRecords(s);
    forall k | 0 <= k < |h| && h[k].Hit?
      ensures Checked(s0, actions + [RendererStep], h[k].address, h[k].check)
    {
      if k < |s.history| {
        assert h[k] == s.history[k];
      } else {
        HitCarriesCheck(s);
      }
      CheckedStays(s0, actions, RendererStep, h[k].address, h[k].check);
    }
  }

  lemma OthersRecordNoHit(s: State, a: Action)
    requires InRange(s) && !a.RendererStep?
    ensures var s' := Step(s, a);
            && |s.history| <= |s'.history| <= |s.history| + 1 && s'.history[..|s.history|] == s.history
            && (|s'.history| > |s.history| ==> !s'.history[|s.history|].Hit?)
            && (s'.renderer.LoadShadow? || Warming(s'.renderer) ==> s'.renderer == s.renderer)
  {
  }

  lemma WitnessedByOthers(s0: State, actions: seq<Action>, next: Action)
    requires InRange(s0) && Witnessed(s0, actions) && !next.RendererStep?
    ensures Witnessed(s0, actions + [next])
  {
    var s := Run(s0, actions);
    RunExtends(s0, actions, next);
    var s' := Step(s, next);
    OthersRecordNoHit(s, next);
    forall a, c | Checked(s0, actions, a, c)
      ensures Checked(s0, actions + [next], a, c)
    {
      CheckedStays(s0, actions, next, a, c);
    }
    forall k | 0 <= k < |s'.history| && s'.history[k].Hit?
      ensures Checked(s0, actions + [next], s'.history[k].address, s'.history[k].check)
    {
      assert s'.history[k] == s.history[k];
    }
  }

  lemma {:induction false} WitnessedRun(s0: State, actions: seq<Action>)
    requires Initial(s0)
    ensures Witnessed(s0, actions)
    decreases |actions|
  {
    if actions != [] {
      var before, last := actions[..|actions| - 1], actions[|actions| - 1];
      WitnessedRun(s0, before);
      assert actions == before + [last];
      if last.RendererStep? {
        WitnessedByRenderer(s0, before);
      } else {
        WitnessedByOthers(s0, before, last);
      }
    }
  }

  /** Linearizable sample reads: every hit of every run has an instant at which its page was
      found ready, and it returned exactly the byte published at that instant, which was chip
      RAM's unless a landed write to the page had its invalidation still to come; whatever
      happened to the page between that instant and the load. */
  lemma HitsLinearize(s0: State, actions: seq<Action>, k: nat)
    requires Initial(s0) && k < |Run(s0, actions).history| && Run(s0, actions).history[k].Hit?
    ensures exists j :: Linearizes(s0, actions, j, Run(s0, actions).history[k])
  {
    var r := Run(s0, actions).history[k];
    WitnessedRun(s0, actions);
    ReadsLinearize(s0, actions, k);
    assert Checked(s0, actions, r.address, r.check);
    var j: nat :| CheckedAt(s0, actions, j, r.address, r.check);
    assert Linearizes(s0, actions, j, r);
  }

  ghost predicate Linearizes(s0: State, actions: seq<Action>, j: nat, r: ReadRecord)
    requires InRange(s0)
  {
    r.Hit? && j <= |actions| && r.address < CHIP_LIMIT
    && var s := Run(s0, actions[..j]);
       && s.renderer == CheckPage(r.address) && s.meta[PageOf(r.address)].st == Ready
       && r.result == s.shadow[r.address]
       && (WritePending(s.writer, PageOf(r.address)) || r.result == s.ram[r.address])
  }
}
