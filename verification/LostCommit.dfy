/**
  A run in which the process dies between the switch of ACTIVE and the save: the next process knows nothing
  of the sequence that is active, and takes a lower one for a step up.
*/
module LostCommits {
  import opened Wrappers
  import opened CoreModels
  import opened Distribution
  import opened RollbackReuse
  import R = ClientRecovery

  function Run(): seq<R.Event> {
    [R.Restart(1), R.Event.Activate(ReleaseOf(1), R.Moves, Saves), R.Event.Activate(ReleaseOf(5), R.Dies, Saves),
     R.Restart(1), R.Event.Activate(ReleaseOf(6), R.Moves, Saves)]
  }

  lemma Delivers(w: R.World, v: nat, fate: R.Fate)
    requires w.client.Some? && Ready(w.client.value, v) && !fate.Raises?
    ensures var e, c := R.Event.Activate(ReleaseOf(v), fate, Saves), Attempt(Setup(), w.client.value, ReleaseOf(v)).0;
            && R.Switched(Setup(), w, e) == Some(AcceptedOf(v))
            && R.Next(Setup(), w, e).active == Some(BundleOf(v)) && R.Next(Setup(), w, e).root == w.root
            && (R.Next(Setup(), w, e).client, R.Next(Setup(), w, e).saved) == if fate.Moves? then (Some(c), Some(c.state)) else (None, w.saved)
  {
    CommitsNext(w.client.value, v);
    assert ReleaseOf(v).(installed := true) == ReleaseOf(v);
    assert AcceptedOf(v).policy.bundle == BundleOf(v);
    hide Attempt;
    hide Setup;
    hide ReleaseOf;
    hide AcceptedOf;
    hide BundleOf;
    hide Ready;
  }

  lemma Restarts(w: R.World)
    requires w.root == Raw(0)
    ensures R.Next(Setup(), w, R.Restart(1)) == w.(client := Some(ClientState(Root(), Loaded(w.saved))))
  {
    RootEnrolls();
    assert Setup().crypto == Primitives() && Setup().organization == "org";
    hide Setup;
    hide Primitives;
    hide Root;
    hide Raw;
  }

  lemma ReadyAfterFirst()
    ensures var c0 := ClientState(Root(), NEW_STATE);
            var c := Attempt(Setup(), c0, ReleaseOf(1)).0;
            Ready(c0, 1) && c.root == Root() && Ready(c, 5) && Ready(c, 6)
  {
    var c0 := ClientState(Root(), NEW_STATE);
    GateOpens(c0.state, 1);
    CommitsNext(c0, 1);
    var c := Attempt(Setup(), c0, ReleaseOf(1)).0;
    GateOpens(c.state, 5);
    GateOpens(c.state, 6);
    hide Attempt;
    hide ReleaseOf;
    hide Root;
    hide Setup;
    hide AcceptedOf;
  }

  lemma Unfolds(n: nat)
    requires n < |Run()|
    ensures R.At(Setup(), Raw(0), Run(), 0) == R.World(None, None, Raw(0), None)
    ensures R.At(Setup(), Raw(0), Run(), n + 1) == R.Next(Setup(), R.At(Setup(), Raw(0), Run(), n), Run()[n])
  {
    hide R.Next;
    hide Setup;
    hide Raw;
  }

  lemma RunIs()
    ensures |Run()| == 5 && Run()[0] == Run()[3] == R.Restart(1)
    ensures Run()[1] == R.Event.Activate(ReleaseOf(1), R.Moves, Saves) && Run()[2] == R.Event.Activate(ReleaseOf(5), R.Dies, Saves)
    ensures Run()[4] == R.Event.Activate(ReleaseOf(6), R.Moves, Saves)
    ensures Loaded(None) == NEW_STATE && forall s :: Loaded(Some(s)) == s
  {
    hide ReleaseOf;
  }

  lemma BundlesAre()
    ensures BundleOf(5).sequence == 7 && AcceptedOf(6).policy.bundle == BundleOf(6) && BundleOf(6).sequence == 6
    ensures !AcceptedOf(6).rollback && AcceptedOf(6).descriptor.rollback == None
  {
  }

  /** ACTIVE steps down from sequence 7 to 6, with no authorisation in the release. */
  lemma StepsDownUnauthorized()
    ensures |Run()| == 5
    ensures var w, e := R.At(Setup(), Raw(0), Run(), 4), Run()[4];
            && R.Switched(Setup(), w, e).Some? && w.active.Some? && w.active.value.sequence == 7
            && R.Switched(Setup(), w, e).value.policy.bundle.sequence == 6
            && !R.Switched(Setup(), w, e).value.rollback && R.Switched(Setup(), w, e).value.descriptor.rollback == None
            && R.Next(Setup(), w, e).active == Some(BundleOf(6))
  {
    ReadyAfterFirst();
    BundlesAre();
    RunIs();
    hide *;
    var cfg, raw, events := Setup(), Raw(0), Run();
    Unfolds(0);
    Restarts(R.At(cfg, raw, events, 0));
    Unfolds(1);
    Delivers(R.At(cfg, raw, events, 1), 1, R.Moves);
    Unfolds(2);
    Delivers(R.At(cfg, raw, events, 2), 5, R.Dies);
    Unfolds(3);
    Restarts(R.At(cfg, raw, events, 3));
    Delivers(R.At(cfg, raw, events, 4), 6, R.Moves);
  }
}
