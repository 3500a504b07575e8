/** The downloader in the source's own form: an object whose methods loop over the
    log's answers and update its fields, proved against the machine of `Download`.
 */
module LogWorker {
  import opened Options
  import opened Runs
  import opened Download

  lemma SentOfOneMore(hs: seq<Handled>, h: Handled)
    ensures SentOf(hs + [h]) == SentOf(hs) + if h.verdict.Sent? then [h] else []
  {
    assert (hs + [h])[..|hs|] == hs;
  }

  /** `MaxEntry` after these values were handed to `saveState`. */
  function Recorded(maxEntry: int, saved: seq<uint64>): int {
    if saved == [] then maxEntry
    else if saved[|saved| - 1] > MAX_INT64 then Recorded(maxEntry, saved[..|saved| - 1])
    else saved[|saved| - 1]
  }

  lemma RecordedOneMore(maxEntry: int, saved: seq<uint64>, index: uint64)
    ensures Recorded(maxEntry, saved + [index]) == if index > MAX_INT64 then Recorded(maxEntry, saved) else index
  {
    assert (saved + [index])[..|saved|] == saved;
  }

  /** The machine's states along an environment, without the environment's past. */
  ghost predicate Moves(trail: nat -> Worker, env: seq<Moment>, k: nat)
    requires k < |env|
  {
    trail(k + 1) == Step(trail(k), env[k])
  }

  ghost predicate IsTrail(trail: nat -> Worker, env: seq<Moment>) {
    forall k: nat | k < |env| :: Moves(trail, env, k)
  }

  lemma TrailFrom(w0: Worker, env: seq<Moment>) returns (trail: nat -> Worker)
    ensures IsTrail(trail, env) && trail(0) == w0
  {
    trail := (k: nat) => if k <= |env| then Play(w0, env[..k]) else w0;
    forall k: nat | k < |env| ensures Moves(trail, env, k) {
      AfterOneMore(Step, w0, env, k);
    }
  }

  lemma {:induction false} TrailIsPlay(trail: nat -> Worker, env: seq<Moment>, k: nat)
    requires IsTrail(trail, env) && k <= |env|
    ensures trail(k) == Play(trail(0), env[..k])
  {
    if k == 0 {
    } else {
      TrailIsPlay(trail, env, k - 1);
      AfterOneMore(Step, trail(0), env, k - 1);
      assert Moves(trail, env, k - 1);
    }
  }

  /** One turn of the select loop, as the machine sees it. */
  lemma OfferTurn(trail: nat -> Worker, env: seq<Moment>, k: nat, body: int, maxEntry: int)
    requires IsTrail(trail, env) && k < |env|
    requires Offering(trail(k)) && trail(k).phase.pending[0] == Good(body)
    ensures var w, w', m := trail(k), trail(k + 1), env[k];
            match m.choice
            case Signal => w' == w.(phase := Saving(Signalled))
            case SaveTick =>
              && w' == w.(saved := w'.saved, stores := Save(w.stores, w.index, m.cacheOk, m.backendOk))
              && Recorded(maxEntry, w'.saved) == if w.index > MAX_INT64 then Recorded(maxEntry, w.saved) else w.index
            case Accepted =>
              && w'.index == Wrap(w.index + 1) && w'.phase == Delivering(w.phase.pending[1..])
              && w'.end == w.end && w'.saved == w.saved && w'.stores == w.stores
              && SentOf(w'.handled) == SentOf(w.handled) + [Handled(w.index, Sent(body))]
  {
    var w := trail(k);
    assert Moves(trail, env, k);
    SentOfOneMore(w.handled, Handled(w.index, Sent(body)));
    RecordedOneMore(maxEntry, w.saved, w.index);
  }

  lemma RejectedTurn(trail: nat -> Worker, env: seq<Moment>, k: nat)
    requires IsTrail(trail, env) && k < |env|
    requires trail(k).phase.Delivering? && trail(k).phase.pending != [] && trail(k).phase.pending[0].Erroneous?
    ensures var w, w' := trail(k), trail(k + 1);
            && w'.index == Wrap(w.index + 1) && w'.phase == Delivering(w.phase.pending[1..])
            && w'.end == w.end && w'.saved == w.saved && w'.stores == w.stores
            && SentOf(w'.handled) == SentOf(w.handled)
  {
    assert Moves(trail, env, k);
    SentOfOneMore(trail(k).handled, Handled(trail(k).index, Rejected));
  }

  /** What the worker's fields hold before a run. */
  datatype Before = Before(sent: seq<Handled>, maxEntry: int)

  class LogWorker {
    const startPos: uint64
    const endPos: uint64
    var stores: Stores         // LogState as the cache and the backend hold it
    var maxEntry: int          // LogState.MaxEntry
    var channel: seq<Handled>  // what this worker has put on the entry channel

    constructor (startPos: uint64, endPos: uint64, stores: Stores, maxEntry: int)
      ensures this.startPos == startPos && this.endPos == endPos && this.stores == stores
      ensures this.maxEntry == maxEntry && channel == []
    {
      this.startPos := startPos;
      this.endPos := endPos;
      this.stores := stores;
      this.maxEntry := maxEntry;
      channel := [];
    }

    /** Records the next index to fetch, unless it does not fit an int64. */
    method SaveState(index: uint64, cacheOk: bool, backendOk: bool)
      modifies this`stores, this`maxEntry
      ensures stores == Save(old(stores), index, cacheOk, backendOk)
      ensures maxEntry == if index > MAX_INT64 then old(maxEntry) else index
    {
      if index > MAX_INT64 {
        return;
      }
      maxEntry := index;
      if cacheOk {
        stores := stores.(cache := Some(index));
      }
      if backendOk {
        stores := stores.(backend := Some(index));
      }
    }

    /** The fields agree with the machine after k moments of a run, when the channel and
        `MaxEntry` were as `b` says before. */
    ghost predicate Follows(w: Worker, b: Before)
      reads this
    {
      && stores == w.stores && channel == b.sent + SentOf(w.handled)
      && maxEntry == Recorded(b.maxEntry, w.saved)
    }

    /** The `select` loop: offers one entry until the channel takes it or a signal
        arrives, saving on every tick meanwhile. */
    method Offer(index: uint64, body: int, env: seq<Moment>, from: nat,
                 ghost trail: nat -> Worker, ghost b: Before)
      returns (how: Option<Outcome>, k: nat)
      requires IsTrail(trail, env) && from <= |env| && Follows(trail(from), b)
      requires trail(from).index == index && Offering(trail(from)) && trail(from).phase.pending[0] == Good(body)
      modifies this`stores, this`maxEntry, this`channel
      ensures from <= k <= |env| && Follows(trail(k), b) && trail(k).end == trail(from).end
      ensures how == None ==>
                trail(k).index == Wrap(index + 1) && trail(k).phase == Delivering(trail(from).phase.pending[1..])
      ensures how.Some? ==> trail(k).index == index
      ensures how.Some? ==> if how.value.Crashed? then k == |env| else trail(k).phase == Saving(how.value)
    {
      k := from;
      while k < |env|
        invariant from <= k <= |env| && Follows(trail(k), b)
        invariant trail(k) == trail(from).(saved := trail(k).saved, stores := trail(k).stores)
      {
        var m := env[k];
        OfferTurn(trail, env, k, body, b.maxEntry);
        k := k + 1;
        match m.choice {
          case Signal =>
            return Some(Signalled), k;
          case SaveTick =>
            SaveState(index, m.cacheOk, m.backendOk);
          case Accepted =>
            channel := channel + [Handled(index, Sent(body))];
            return None, k;
        }
      }
      return Some(Crashed), k;
    }

    /** The loop over the leaves of one answer. */
    method DeliverLeaves(first: uint64, leaves: seq<Leaf>, env: seq<Moment>, from: nat,
                         ghost trail: nat -> Worker, ghost b: Before)
      returns (index: uint64, how: Option<Outcome>, k: nat)
      requires IsTrail(trail, env) && from <= |env| && Follows(trail(from), b)
      requires trail(from).index == first && trail(from).phase == Delivering(leaves)
      modifies this`stores, this`maxEntry, this`channel
      ensures from <= k <= |env| && Follows(trail(k), b)
      ensures trail(k).end == trail(from).end && index == trail(k).index
      ensures how == None ==> trail(k).phase == Delivering([])
      ensures how.Some? ==> if how.value.Crashed? then k == |env| else trail(k).phase == Saving(how.value)
    {
      index, k := first, from;
      var pending := leaves;
      while pending != []
        invariant from <= k <= |env| && Follows(trail(k), b)
        invariant index == trail(k).index && trail(k).end == trail(from).end && trail(k).phase == Delivering(pending)
        decreases |pending|
      {
        if k == |env| { return index, Some(Crashed), k; }
        match pending[0] {
          case Erroneous =>
            RejectedTurn(trail, env, k);
            k := k + 1;
          case Good(body) =>
            how, k := Offer(index, body, env, k, trail, b);
            if how.Some? { return index, how, k; }
        }
        index, pending := Wrap(index + 1), pending[1..];
      }
      return index, None, k;
    }

    /** The loop over requests. */
    method Requests(env: seq<Moment>, ghost trail: nat -> Worker, ghost b: Before)
      returns (index: uint64, how: Outcome, k: nat)
      requires IsTrail(trail, env) && trail(0) == Fresh(startPos, endPos, stores) && trail(0).phase.Asking?
      requires b == Before(channel, maxEntry)
      modifies this`stores, this`maxEntry, this`channel
      ensures k <= |env| && Follows(trail(k), b) && index == trail(k).index
      ensures if how.Crashed? then k == |env| else trail(k).phase == Saving(how)
    {
      index, k := startPos, 0;
      while index < endPos
        invariant k <= |env| && Follows(trail(k), b)
        invariant trail(k).end == endPos && index == trail(k).index && trail(k).phase.Asking?
        decreases |env| - k
      {
        if k == |env| { return index, Crashed, k; }
        assert Moves(trail, env, k);
        var reply := env[k].reply;
        k := k + 1;
        if reply.TooManyRequests? { continue; }
        if reply.Failed? { return index, RequestFailed, k; }
        var stopped: Option<Outcome>;
        index, stopped, k := DeliverLeaves(index, reply.leaves, env, k, trail, b);
        if stopped.Some? { return index, stopped.value, k; }
        if k == |env| { return index, Crashed, k; }
        assert Moves(trail, env, k);
        k := k + 1;
      }
      if k == |env| { return index, Crashed, k; }
      assert Moves(trail, env, k);
      return index, ReachedEnd, k + 1;
    }

    /** `downloadCTRangeToChannel`, given as much of the environment as it lives to see. */
    method DownloadRange(env: seq<Moment>) returns (index: uint64, how: Outcome, k: nat)
      requires startPos != endPos
      modifies this`stores, this`maxEntry, this`channel
      ensures k <= |env|
      ensures var w := Play(Fresh(startPos, endPos, old(stores)), env[..k]);
              && stores == w.stores && index == w.index
              && channel == old(channel) + SentOf(w.handled)
              && maxEntry == Recorded(old(maxEntry), w.saved)
              && (if how.Crashed? then k == |env| else w.phase == Saving(how))
    {
      ghost var trail := TrailFrom(Fresh(startPos, endPos, stores), env);
      index, how, k := Requests(env, trail, Before(channel, maxEntry));
      TrailIsPlay(trail, env, k);
    }

    /** `Run`: nothing to do, or download and then save the final index. */
    method Run(env: seq<Moment>) returns (how: Outcome)
      modifies this`stores, this`maxEntry, this`channel
      ensures exists k: nat :: k <= |env| &&
                var w := Play(Fresh(startPos, endPos, old(stores)), env[..k]);
                && stores == w.stores && channel == old(channel) + SentOf(w.handled)
                && maxEntry == Recorded(old(maxEntry), w.saved)
                && (if how.Crashed? then k == |env| else w.phase == Stopped(how))
    {
      ghost var w0 := Fresh(startPos, endPos, stores);
      if startPos == endPos {
        how := NothingToDo;
        assert Play(w0, env[..0]) == w0;
        return;
      }
      var index, k;
      index, how, k := DownloadRange(env);
      assert k <= |env|;
      if how.Crashed? { return; }
      if k == |env| { how := Crashed; return; }
      AfterOneMore(Step, w0, env, k);
      RecordedOneMore(old(maxEntry), Play(w0, env[..k]).saved, index);
      SaveState(index, env[k].cacheOk, env[k].backendOk);
      assert k + 1 <= |env|;
    }
  }
}
