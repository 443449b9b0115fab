/**
 * Claims between processes: claimAttempt and pairExists of src/core/adaptive-session.js with any number of
 * processes at work on one session, whatever the session lock does.
 *
 * A call goes for one attempt index with one claim. Files are created exclusively and never removed; a
 * call may end at any step, by an error or with its process.
 */
module AdaptiveClaims {
  import opened Basics
  import opened AdaptiveContract

  /** Who created a body is not stored; the model keeps it to say whose run it was. */
  datatype Body = Body(claim: Claim, owner: nat)

  datatype Disk = Disk(bodies: map<nat, Body>, digests: map<nat, ClaimSha256>)

  datatype Pc =
    | LookFirst(bodyFirst: bool) | LookSecond(bodyFirst: bool, found: bool) | Compare
    | WriteBody | WriteDigest | CallRun | CallResume

  datatype Call = Call(index: nat, claim: Claim, pc: Pc)

  datatype Run = Run(index: nat, caller: nat)

  datatype World = World(disk: Disk, calls: map<nat, Call>, used: set<nat>, runs: seq<Run>)

  datatype Event =
    | Start(token: nat, index: nat, claim: Claim, bodyFirst: bool)
    | Go(token: nat)
    | Die(token: nat)

  /** The call ends here, with an error or after calling its runner. */
  datatype Next = Stop | Continue(pc: Pc)

  function NextPc(disk: Disk, call: Call): Next {
    match call.pc
    case LookFirst(bodyFirst) =>
      Continue(LookSecond(bodyFirst, if bodyFirst then call.index in disk.bodies else call.index in disk.digests))
    case LookSecond(bodyFirst, found) =>
      var other := if bodyFirst then call.index in disk.digests else call.index in disk.bodies;
      if found != other then Stop else if found then Continue(Compare) else Continue(WriteBody)
    case Compare =>
      if call.index in disk.bodies && call.index in disk.digests
         && disk.digests[call.index] == ClaimSha256(disk.bodies[call.index].claim)
         && disk.bodies[call.index].claim == call.claim then Continue(CallResume) else Stop
    case WriteBody => if call.index in disk.bodies then Stop else Continue(WriteDigest)
    case WriteDigest => if call.index in disk.digests then Stop else Continue(CallRun)
    case CallRun => Stop
    case CallResume => Stop
  }

  function NextDisk(disk: Disk, token: nat, call: Call): Disk {
    match call.pc
    case WriteBody =>
      if call.index in disk.bodies then disk else disk.(bodies := disk.bodies[call.index := Body(call.claim, token)])
    case WriteDigest =>
      if call.index in disk.digests then disk else disk.(digests := disk.digests[call.index := ClaimSha256(call.claim)])
    case _ => disk
  }

  function Step(w: World, event: Event): World {
    match event
    case Start(token, index, claim, bodyFirst) =>
      if token in w.used then w
      else w.(calls := w.calls[token := Call(index, claim, LookFirst(bodyFirst))], used := w.used + {token})
    case Go(token) =>
      if token !in w.calls then w
      else
        var call := w.calls[token];
        w.(disk := NextDisk(w.disk, token, call),
           calls := (match NextPc(w.disk, call)
                     case Stop => w.calls - {token}
                     case Continue(pc) => w.calls[token := call.(pc := pc)]),
           runs := if call.pc == CallRun then w.runs + [Run(call.index, token)] else w.runs)
    case Die(token) => w.(calls := w.calls - {token})
  }

  function Steps(w: World, events: seq<Event>): World {
    if events == [] then w else Step(Steps(w, events[..|events| - 1]), events[|events| - 1])
  }

  predicate Initial(w: World) {
    w == World(Disk(map[], map[]), map[], {}, [])
  }

  /** A call about to write the digest or to run created the body itself. */
  predicate OwnsBody(w: World, token: nat, call: Call) {
    && token in w.used
    && (call.pc == WriteDigest || call.pc == CallRun ==>
          call.index in w.disk.bodies && w.disk.bodies[call.index] == Body(call.claim, token))
    && (call.pc == WriteDigest ==> call.index !in w.disk.digests)
    && (call.pc == CallRun ==> Durable(w.disk, call.index))
  }

  predicate Durable(disk: Disk, index: nat) {
    index in disk.bodies && index in disk.digests && disk.digests[index] == ClaimSha256(disk.bodies[index].claim)
  }

  predicate RanWithClaim(w: World, run: Run) {
    && run.caller in w.used && run.caller !in w.calls
    && Durable(w.disk, run.index) && w.disk.bodies[run.index].owner == run.caller
  }

  predicate Ok(w: World) {
    && (forall token :: token in w.calls ==> OwnsBody(w, token, w.calls[token]))
    && (forall index :: index in w.disk.digests ==> Durable(w.disk, index))
    && (forall k :: 0 <= k < |w.runs| ==> RanWithClaim(w, w.runs[k]))
    && (forall j, k :: 0 <= j < k < |w.runs| ==> w.runs[j].index != w.runs[k].index)
  }

  /** Creating a body where none was leaves everything already claimed alone. */
  lemma StepKeeps(w: World, event: Event)
    requires Ok(w)
    ensures Ok(Step(w, event))
  {
    var after := Step(w, event);
    if event.Go? && event.token in w.calls {
      var token, call := event.token, w.calls[event.token];
      assert OwnsBody(w, token, call);
      forall other | other in after.calls
        ensures OwnsBody(after, other, after.calls[other])
      {
        if other != token {
          assert OwnsBody(w, other, w.calls[other]);
        }
      }
      forall k | 0 <= k < |after.runs|
        ensures RanWithClaim(after, after.runs[k])
      {
        if k < |w.runs| {
          assert RanWithClaim(w, w.runs[k]);
        }
      }
      forall j, k | 0 <= j < k < |after.runs|
        ensures after.runs[j].index != after.runs[k].index
      {
        if k == |w.runs| {
          assert RanWithClaim(w, w.runs[j]);
        }
      }
    } else {
      forall other | other in after.calls && other in w.calls
        ensures OwnsBody(after, other, after.calls[other])
      {
        assert OwnsBody(w, other, w.calls[other]);
      }
      forall k | 0 <= k < |w.runs|
        ensures RanWithClaim(after, w.runs[k])
      {
        assert RanWithClaim(w, w.runs[k]);
      }
    }
  }

  lemma {:induction false} Reachable(w: World, events: seq<Event>)
    requires Initial(w)
    ensures Ok(Steps(w, events))
  {
    hide Step;
    if events != [] {
      Reachable(w, events[..|events| - 1]);
      StepKeeps(Steps(w, events[..|events| - 1]), events[|events| - 1]);
    }
  }

  /**
   * Over all processes and crashes no attempt index is run twice, and every run has its claim on disk,
   * complete and created by the very call that runs it. Any later call for the index resumes or stops.
   */
  lemma {:induction false} RunAtMostOnce(w: World, events: seq<Event>, j: nat, k: nat)
    requires Initial(w)
    requires var now := Steps(w, events); j < |now.runs| && k < |now.runs| && now.runs[j].index == now.runs[k].index
    ensures j == k
    ensures var now := Steps(w, events);
            && Durable(now.disk, now.runs[k].index)
            && now.disk.bodies[now.runs[k].index].owner == now.runs[k].caller
            && forall token :: token in now.calls && now.calls[token].index == now.runs[k].index ==>
                 now.calls[token].pc != CallRun
  {
    hide Steps;
    Reachable(w, events);
    var now := Steps(w, events);
    assert RanWithClaim(now, now.runs[k]);
    forall token | token in now.calls && now.calls[token].index == now.runs[k].index
      ensures now.calls[token].pc != CallRun
    {
      assert OwnsBody(now, token, now.calls[token]);
    }
  }
}
