/** The leader's job as the source has it: fields updated in place, one pass at a time. */
module LeaderJob {
  import opened Arithmetic
  import opened Timelines
  import opened Tracking
  import opened Leader

  class Job {
    var timeline: Timeline
    const tracker: Tracker
    var dirty: bool
    var bytes: Snapshot
    var commandMore: bool

    function State(): LeaderState
      reads this, tracker
    {
      LeaderState(timeline, tracker.State(), dirty, bytes)
    }

    constructor (session: Id16, id: Id16, format: Format, kind: SourceKind, position: Pos, rate: Speed, now: nat)
      ensures State() == Started(session, id, format, kind, position, rate, now)
      ensures fresh(tracker) && !commandMore
    {
      var t := Beginning(session, id, format, kind, position, rate, now);
      timeline, dirty, bytes, commandMore := t, false, ToWire(t), false;
      tracker := new Tracker();
    }

    /** The effect of one command on the job, and whether it calls for publication. */
    method Dispatch(r: Request) returns (publish: bool)
      modifies this`timeline, this`dirty, tracker
      ensures var h := Handle(old(State()), r);
              State() == h.state && publish == h.publish
    {
      hide SampleStep, Controlled;
      publish := false;
      match r.command {
        case AssignId(id) =>
          publish := timeline.sessionId != Some(id);
          timeline := timeline.(sessionId := Some(id));
        case Alter(change, effective) =>
          var result := ChangeTimeline(timeline, change, effective, r.now);
          if result.Ok? {
            timeline := result.value;
            publish := true;
          }
        case Feed(s) =>
          var health := timeline.sourceHealth;
          var changed, u := tracker.Sample(timeline, s, r.now);
          timeline := u;
          if changed.Some? {
            dirty := true;
            publish := changed.value || health != timeline.sourceHealth;
          }
        case Unrelated =>
      }
    }

    /** Takes at most one batch from the channel. */
    method Drain(channel: seq<Request>) returns (publish: bool)
      modifies this`timeline, this`dirty, this`commandMore, tracker
      ensures var h := Drained(old(State()), channel[..MinI(32, |channel|)]);
              State() == h.state && publish == h.publish
      ensures commandMore <==> |channel| >= 32
    {
      publish, commandMore := false, false;
      ghost var before := State();
      var operation := 0;
      while operation < BATCH && operation < |channel|
        invariant 0 <= operation <= BATCH && operation <= |channel|
        invariant Drained(before, channel[..operation]) == Handled(State(), publish)
        invariant commandMore <==> operation == BATCH
        decreases |channel| - operation
      {
        commandMore := operation == BATCH - 1;
        var p := Dispatch(channel[operation]);
        publish := publish || p;
        assert channel[..operation + 1][..operation] == channel[..operation];
        operation := operation + 1;
        hide Handle;
      }
      assert channel[..0] == [];
    }

    /** Applies every control whose time has come. */
    method ApplyDue(now: nat) returns (publish: bool)
      modifies this`timeline
      ensures timeline == Due(old(timeline), now)
      ensures publish <==> |timeline.scheduled| != |old(timeline).scheduled|
    {
      publish := false;
      while timeline.scheduled != [] && timeline.scheduled[0].anchor.timeNs <= now
        invariant Due(timeline, now) == Due(old(timeline), now)
        invariant |timeline.scheduled| <= |old(timeline).scheduled|
        invariant publish <==> |timeline.scheduled| != |old(timeline).scheduled|
        decreases |timeline.scheduled|
      {
        var s := timeline.scheduled[0];
        timeline := timeline.(anchor := s.anchor, discontinuity := s.discontinuity,
                              scheduled := timeline.scheduled[1..]);
        publish := true;
      }
    }

    /** Due controls and source health, after the commands. */
    method Update(ghost pass: Pass, now: nat, timeoutNs: nat, wanted: bool) returns (publish: bool)
      requires pass.now == now && pass.timeoutNs == timeoutNs
      modifies this`timeline
      ensures var h := Settle(Handled(old(State()), wanted), pass);
              State() == h.state && publish == h.publish
    {
      var due := ApplyDue(now);
      KindKept(old(timeline), now);
      hide Due;
      publish := wanted || due;
      if timeline.sourceKind == Tracked {
        var health := tracker.Health(now, timeoutNs);
        if health != timeline.sourceHealth {
          timeline := timeline.(sourceHealth := health);
          publish := true;
        }
      }
    }

    /** The timeline part of `LeaderJob::progress`. */
    method Advance(channel: seq<Request>, now: nat, timeoutNs: nat, heartbeatDue: bool, trackedDue: bool)
      returns (published: bool)
      modifies this`timeline, this`dirty, this`bytes, this`commandMore, tracker
      ensures var pass := Pass(channel[..MinI(32, |channel|)], now, timeoutNs, heartbeatDue, trackedDue);
              var h := Progress(old(State()), pass);
              State() == h.state && published == h.publish
      ensures commandMore <==> |channel| >= 32
    {
      ghost var pass := Pass(channel[..MinI(BATCH, |channel|)], now, timeoutNs, heartbeatDue, trackedDue);
      hide Drained, Settle, ToWire;
      published := Drain(channel);
      published := Update(pass, now, timeoutNs, published);
      published := published || heartbeatDue || (dirty && trackedDue);
      if published {
        timeline := timeline.(revision := timeline.revision + 1);
        bytes := ToWire(timeline);
        dirty := false;
      }
    }
  }
}
