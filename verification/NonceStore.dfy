/** python/examples/slack-agent/webhook.py: one-time OAuth nonces with a time to live. `now` is the
    monotonic clock, in seconds, read by each call. */
module NonceStore {
  import opened Wrappers

  const NONCE_TTL: real := 600.0

  datatype Grant = Grant(user: string, expires: real)
  type Pending = map<string, Grant>

  function Live(p: Pending, now: real): Pending {
    map n | n in p && p[n].expires > now :: p[n]
  }

  function AfterPut(p: Pending, nonce: string, user: string, now: real): Pending {
    Live(p, now)[nonce := Grant(user, now + NONCE_TTL)]
  }

  function AfterPop(p: Pending, nonce: string, now: real): Pending {
    Live(p, now) - {nonce}
  }

  function PopAnswer(p: Pending, nonce: string, now: real): Option<string> {
    var live := Live(p, now);
    if nonce in live then Some(live[nonce].user) else None
  }

  class NonceStore {
    var pending: Pending

    constructor ()
      ensures pending == map[]
    {
      pending := map[];
    }

    method PurgeExpired(now: real)
      modifies this
      ensures pending == Live(old(pending), now)
    {
      var expired := set n | n in pending && pending[n].expires <= now;
      while expired != {}
        invariant expired == set n | n in pending && pending[n].expires <= now
        invariant Live(pending, now) == Live(old(pending), now)
        decreases expired
      {
        var nonce :| nonce in expired;
        ghost var before := pending;
        pending := pending - {nonce};
        assert Live(pending, now) == Live(before, now);
        expired := expired - {nonce};
      }
      assert forall n :: n in pending && pending[n].expires <= now ==> n in expired;
      assert pending == Live(pending, now);
    }

    method PutNonce(nonce: string, user: string, now: real)
      modifies this
      ensures pending == AfterPut(old(pending), nonce, user, now)
    {
      PurgeExpired(now);
      pending := pending[nonce := Grant(user, now + NONCE_TTL)];
    }

    /** Purging first leaves nothing for the expiry test after the pop to catch. */
    method PopNonce(nonce: string, now: real) returns (user: Option<string>)
      modifies this
      ensures pending == AfterPop(old(pending), nonce, now)
      ensures user == PopAnswer(old(pending), nonce, now)
    {
      PurgeExpired(now);
      if nonce !in pending {
        return None;
      }
      var entry := pending[nonce];
      pending := pending - {nonce};
      if entry.expires <= now {
        assert false;
      }
      return Some(entry.user);
    }
  }

  // ---- Whole runs ----

  datatype Event = Put(nonce: string, user: string, at: real) | Pop(nonce: string, at: real)

  function AfterEvent(p: Pending, e: Event): Pending {
    match e
    case Put(nonce, user, at) => AfterPut(p, nonce, user, at)
    case Pop(nonce, at) => AfterPop(p, nonce, at)
  }

  function AfterRun(run: seq<Event>): Pending {
    if run == [] then map[] else AfterEvent(AfterRun(run[..|run| - 1]), run[|run| - 1])
  }

  ghost predicate Chronological(run: seq<Event>) {
    forall i, j :: 0 <= i < j < |run| ==> run[i].at <= run[j].at
  }

  /** The put of `nonce` that no later put or pop of it has superseded. */
  ghost predicate Outstanding(run: seq<Event>, nonce: string, i: int) {
    0 <= i < |run| && run[i].Put? && run[i].nonce == nonce &&
    forall j :: i < j < |run| ==> run[j].nonce != nonce
  }

  /** An outstanding put of `nonce` granting `g`, still live at the end of the run. */
  ghost predicate Grants(run: seq<Event>, nonce: string, g: Grant, i: int) {
    Outstanding(run, nonce, i) && g == Grant(run[i].user, run[i].at + 600.0) && run[|run| - 1].at < g.expires
  }

  lemma GrantsAfter(init: seq<Event>, e: Event, nonce: string, g: Grant, i: int)
    requires Chronological(init + [e])
    ensures Grants(init + [e], nonce, g, i) <==>
      || (i == |init| && e.Put? && e.nonce == nonce && g == Grant(e.user, e.at + NONCE_TTL))
      || (i < |init| && e.nonce != nonce && e.at < g.expires && Grants(init, nonce, g, i))
  {
    var run := init + [e];
    assert run[|init|] == e;
    if 0 <= i < |init| {
      assert run[i] == init[i];
      assert run[|init| - 1].at <= run[|init|].at;
      assert Outstanding(run, nonce, i) <==> Outstanding(init, nonce, i) && e.nonce != nonce by {
        assert forall j :: i < j < |init| ==> run[j] == init[j];
      }
    }
  }

  lemma GetAfterEvent(p: Pending, e: Event, nonce: string)
    ensures Get(AfterEvent(p, e), nonce) ==
      if e.nonce == nonce then (if e.Put? then Some(Grant(e.user, e.at + NONCE_TTL)) else None)
      else if nonce in p && p[nonce].expires > e.at then Some(p[nonce]) else None
  {
  }

  /** After any run the store holds exactly the outstanding puts that were less than the time to
      live old at the last event. */
  lemma {:induction false} StoreIsLiveOutstanding(run: seq<Event>, nonce: string, g: Grant)
    requires Chronological(run)
    ensures Get(AfterRun(run), nonce) == Some(g) <==> exists i :: Grants(run, nonce, g, i)
  {
    if run != [] {
      var init, e := run[..|run| - 1], run[|run| - 1];
      assert run == init + [e];
      StoreIsLiveOutstanding(init, nonce, g);
      forall i
        ensures Grants(run, nonce, g, i) <==>
          || (i == |init| && e.Put? && e.nonce == nonce && g == Grant(e.user, e.at + NONCE_TTL))
          || (i < |init| && e.nonce != nonce && e.at < g.expires && Grants(init, nonce, g, i))
      {
        GrantsAfter(init, e, nonce, g, i);
      }
      GetAfterEvent(AfterRun(init), e, nonce);
      if Get(AfterRun(run), nonce) == Some(g) {
        if e.nonce == nonce {
          assert Grants(run, nonce, g, |init|);
        } else {
          var i :| Grants(init, nonce, g, i);
          assert Grants(run, nonce, g, i);
        }
      }
    }
  }

  /** A pop answers with a user exactly when that nonce's latest put was for that user, less than
      the time to live ago, and has not been popped since. */
  lemma PopAnswersExactly(run: seq<Event>, nonce: string, now: real, user: string)
    requires Chronological(run) && (run != [] ==> run[|run| - 1].at <= now)
    ensures PopAnswer(AfterRun(run), nonce, now) == Some(user) <==>
      exists i :: Outstanding(run, nonce, i) && run[i].user == user && now - run[i].at < 600.0
  {
    var p := AfterRun(run);
    if PopAnswer(p, nonce, now) == Some(user) {
      StoreIsLiveOutstanding(run, nonce, p[nonce]);
      var i :| Grants(run, nonce, p[nonce], i);
    }
    if i :| Outstanding(run, nonce, i) && run[i].user == user && now - run[i].at < 600.0 {
      var g := Grant(user, run[i].at + NONCE_TTL);
      assert Grants(run, nonce, g, i);
      StoreIsLiveOutstanding(run, nonce, g);
    }
  }

  /** A nonce opens the door once: popping it again without a new put answers nothing. */
  lemma PopOnce(run: seq<Event>, nonce: string, now: real, later: real)
    ensures PopAnswer(AfterRun(run + [Pop(nonce, now)]), nonce, later) == None
  {
    assert (run + [Pop(nonce, now)])[..|run|] == run;
  }

  /** No expired entry remains after any event. */
  lemma NothingExpiredRemains(run: seq<Event>)
    requires run != []
    ensures forall n :: n in AfterRun(run) ==> AfterRun(run)[n].expires > run[|run| - 1].at
  {
  }
}
