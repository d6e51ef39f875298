/** Fast updates are paid for: over a run of latest frames the core counts them as
    the panel logged them, and once there are as many as the configuration allows
    the next settled frame cleans the panel. */
module FastDebt {
  import opened Geometry
  import opened Pixels
  import opened Raster
  import opened Regions
  import opened Tiles
  import opened Ink
  import opened Refresh
  import opened Core
  import opened Composition
  import opened Cadence
  import opened Reliability
  import opened Waveforms

  /** Partial updates driven fast since the last complete refresh. */
  function FastSince(log: seq<Decision>): nat {
    if log == [] || log[|log| - 1].complete then 0
    else FastSince(log[..|log| - 1]) + if log[|log| - 1].waveform in {Fastest, Fast} then 1 else 0
  }

  /** The counter is that of the log, and what was driven fast is remembered. */
  ghost predicate Counted(s: State, p: Panel) {
    && s.fastUpdates == Min(FastSince(p.log), U32_MAX)
    && (s.fastUpdates > 0 ==> s.settle != [])
  }

  lemma CountOne(log: seq<Decision>, d: Decision)
    ensures FastSince(log + [d]) ==
            if d.complete then 0 else FastSince(log) + if d.waveform in {Fastest, Fast} then 1 else 0
  {
    assert (log + [d])[..|log|] == log;
  }

  lemma MergedSome(s: State, existing: seq<Rect>, damage: seq<Rect>)
    requires s.w > 0 && s.h > 0 && damage != [] && AllValid(s.w, s.h, damage)
    ensures MergeTiled(s.w, s.h, s.damageTile, existing, damage) != []
  {
    hide MergeTiled, Size, Col, Row, At;
    var r := damage[0];
    var i := At(s.w, r.x, r.y);
    IndexBound(s.w, s.h, r.x, r.y);
    IndexSplit(s.w, r.x, r.y);
    assert InRect(s.w, damage[0], i);
    assert Covered(s.w, damage, i);
    MergeCovers(s.w, s.h, s.damageTile, existing, damage, i);
    assert Covered(s.w, MergeTiled(s.w, s.h, s.damageTile, existing, damage), i);
  }

  lemma AcceptedCounts(s: State, panel: Panel, now: nat)
    requires Sound(s) && Shaped(s) && s.pending.Some? && s.pending.value.intent == Latest && SubmitDamage(s) != []
    requires Counted(s, panel)
    ensures var d := TickDecision(s);
            Counted(TickAccepted(s, now, 1), panel.(log := panel.log + [d]))
  {
    hide Size, Sound, Shaped, TickDecision, SubmitDamage, SubmitImage, MergeTiled, Submitted, Painted, TotalArea, FastSince, AllValid;
    CountOne(panel.log, TickDecision(s));
    SubmitDamageValid(s);
    ShapedSize(s);
    ImageSize(s);
    MergedSome(s, s.settle, SubmitDamage(s));
  }

  lemma ShapedSize(s: State)
    requires Shaped(s)
    ensures s.w > 0 && s.h > 0
  {
  }

  /** One latest frame presented on a panel that accepts it. */
  lemma TickCounts(s: State, panel: Panel, now: nat)
    requires Sound(s) && Shaped(s) && PanelShaped(Size(s.w, s.h), panel) && Reliable(panel) && UnitPanel(panel)
    requires s.pending.Some? && s.pending.value.intent == Latest && Counted(s, panel)
    ensures var m := Tick(s, panel, now, true);
            && Counted(m.s, m.panel) && m.s.pending.None?
            && Reliable(m.panel) && UnitPanel(m.panel)
  {
    hide Size, Sound, Shaped, PanelShaped, TickDecision, SubmitDamage, SubmitImage, TickAccepted, Counted, Reliable, UnitPanel, Painted, Driven;
    ReliableRest(panel);
    UnitRest(panel);
    RestShaped(Size(s.w, s.h), panel);
    var p := Pumped(panel);
    ReliableRest(p);
    UnitRest(p);
    ImageSize(s);
    SameCount(s, panel, s, p);
    PresentCounts(s, p, now);
    AcceptedFields(s, now, 1);
  }

  lemma SameCount(s: State, p: Panel, t: State, q: Panel)
    requires Counted(s, p) && (t.fastUpdates, t.settle, q.log) == (s.fastUpdates, s.settle, p.log)
    ensures Counted(t, q)
  {
  }

  lemma PresentCounts(s: State, p: Panel, now: nat)
    requires Sound(s) && Shaped(s) && PanelShaped(Size(s.w, s.h), p) && Reliable(p) && UnitPanel(p)
    requires s.pending.Some? && s.pending.value.intent == Latest && Counted(s, p)
    ensures var m := Present(s, p, now); Counted(m.s, m.panel) && Reliable(m.panel) && UnitPanel(m.panel)
  {
    hide Size, Sound, Shaped, PanelShaped, TickDecision, SubmitDamage, SubmitImage, TickAccepted, Counted, Reliable, UnitPanel, Painted, Driven;
    ReliableRest(p);
    UnitRest(p);
    ImageSize(s);
    var m := Present(s, p, now);
    if SubmitDamage(s) == [] {
      SameCount(s, p, m.s, m.panel);
    } else {
      AcceptedCounts(s, p, now);
      SameCount(TickAccepted(s, now, 1), p.(log := p.log + [TickDecision(s)]), m.s, m.panel);
      UnitAlike(m.panel, p.(script := Rest(p)));
      SameScript(m.panel, p.(script := Rest(p)));
    }
  }

  /** Ink at its fastest waveform is counted like a fast frame. */
  lemma InkCounts(s: State, panel: Panel, now: nat)
    requires Sound(s) && Shaped(s) && PanelShaped(Size(s.w, s.h), panel) && Reliable(panel) && UnitPanel(panel)
    requires Counted(s, panel) && s.inkWaveform == Fastest
    ensures var r := Repaint(s, panel, now, Latest, []);
            r.PlaneDone? && Counted(r.moved.s, r.moved.panel) && Reliable(r.moved.panel) && UnitPanel(r.moved.panel)
  {
    hide Size, Sound, PanelShaped, Painted, Driven, Picture, PlaneOk, MergeTiled, ChangedIn, TotalArea, Submitted, FastSince, Reliable, UnitPanel;
    ReliableRest(panel);
    UnitRest(panel);
    PictureSize(s);
    PlaneRegionsValid(s, Latest);
    CountOne(panel.log, Decision(Fastest, false, NoReason));
    var r := Repaint(s, panel, now, Latest, []);
    if PlaneRegions(s, Latest) != [] { MergedSome(s, s.settle, PlaneRegions(s, Latest)); }
    SameScript(r.moved.panel, panel.(script := Rest(panel)));
    UnitAlike(r.moved.panel, panel.(script := Rest(panel)));
    SameScript(r.moved.panel, panel);
    UnitAlike(r.moved.panel, panel);
  }

  // ------------------------------------------------------------------- runs

  /** A frame, when it is committed and when it is presented. */
  datatype Update = Update(frame: Frame, content: Content, at: nat, now: nat)

  datatype Run = Run(s: State, panel: Panel)

  /** Frames committed and presented one after the other; `None` when one of them
      is refused. */
  ghost function ShowAll(s: State, panel: Panel, updates: seq<Update>): Option<Run>
    requires Sound(s) && PanelShaped(Size(s.w, s.h), panel)
    decreases |updates|
  {
    SoundShaped(s);
    if updates == [] then Some(Run.Run(s, panel))
    else
      var u := updates[0];
      var (t, r) := Commit(s, u.frame, u.content, u.at);
      if r.Refused? then None
      else
        CommitSound(s, u.frame, u.content, u.at);
        SoundShaped(t);
        CommitSize(s, u.frame, u.content, u.at);
        TickSound(t, panel, u.now, true);
        TickShaped(t, panel, u.now, true);
        var m := Tick(t, panel, u.now, true);
        ShowAll(m.s, m.panel, updates[1..])
  }

  lemma CommitSize(s: State, f: Frame, content: Content, at: nat)
    requires Shaped(s)
    ensures var t := Commit(s, f, content, at).0; (t.w, t.h) == (s.w, s.h)
  {
    hide Shaped, ApplyAll, CommitCheck;
  }

  lemma CommitCounts(s: State, panel: Panel, u: Update)
    requires Shaped(s) && Counted(s, panel) && Commit(s, u.frame, u.content, u.at).1.Committed?
    ensures var t := Commit(s, u.frame, u.content, u.at).0;
            && Counted(t, panel)
            && t.pending.Some? && t.pending.value.intent == u.frame.intent
            && t.policy == s.policy && t.forceCleanup == s.forceCleanup
            && (t.fastUpdates, t.settle) == (s.fastUpdates, s.settle)
  {
    hide Shaped, ApplyAll, CommitCheck;
  }

  lemma {:induction false} RunCounts(s: State, panel: Panel, updates: seq<Update>)
    requires Sound(s) && PanelShaped(Size(s.w, s.h), panel) && Reliable(panel) && UnitPanel(panel) && Counted(s, panel)
    requires forall k :: 0 <= k < |updates| ==> updates[k].frame.intent == Latest
    requires ShowAll(s, panel, updates).Some?
    ensures var r := ShowAll(s, panel, updates).value;
            && Sound(r.s) && PanelShaped(Size(r.s.w, r.s.h), r.panel)
            && Reliable(r.panel) && Counted(r.s, r.panel)
    decreases |updates|
  {
    hide Sound, Shaped, PanelShaped, Size, Commit, Tick, Reliable, UnitPanel, Counted;
    SoundShaped(s);
    if updates != [] {
      var u := updates[0];
      var t := Commit(s, u.frame, u.content, u.at).0;
      CommitSound(s, u.frame, u.content, u.at);
      SoundShaped(t);
      CommitSize(s, u.frame, u.content, u.at);
      CommitCounts(s, panel, u);
      TickSound(t, panel, u.now, true);
      TickShaped(t, panel, u.now, true);
      TickCounts(t, panel, u.now);
      var m := Tick(t, panel, u.now, true);
      RunCounts(m.s, m.panel, updates[1..]);
    }
  }

  lemma CompleteIsLogged(s: State, panel: Panel, now: nat)
    requires Shaped(s) && PanelShaped(Size(s.w, s.h), panel) && Reliable(panel) && s.pending.Some?
    requires TickDecision(s).complete
    ensures Logs(panel, Tick(s, panel, now, true).panel, TickDecision(s))
  {
    hide Size, Shaped, PanelShaped, TickDecision, TickAccepted, SubmitImage, TickDamage, Reliable, Painted, Driven;
    ReliableRest(panel);
    RestShaped(Size(s.w, s.h), panel);
    ReliableRest(Pumped(panel));
    ImageSize(s);
  }

  /** After any run of latest frames on a panel that accepts them, the next settled
      frame is a complete refresh if the fast updates since the last one are as
      many as the configuration allows; and they are the reason for one if and
      only if they are that many and no cleanup was asked for. */
  lemma StaticCleanupComes(s: State, panel: Panel, updates: seq<Update>, last: Update)
    requires Sound(s) && PanelShaped(Size(s.w, s.h), panel) && Reliable(panel) && UnitPanel(panel)
    requires panel.log == [] && s.fastUpdates == 0
    requires forall k :: 0 <= k < |updates| ==> updates[k].frame.intent == Latest
    requires ShowAll(s, panel, updates).Some? && last.frame.intent == Settled
    ensures var r := ShowAll(s, panel, updates).value;
            && Shaped(r.s)
            && var (t, answer) := Commit(r.s, last.frame, last.content, last.at);
               var n := r.s.policy.config.staticAfter;
               answer.Committed? && r.s.policy.config.partialEnabled && 0 < n <= U32_MAX ==>
                 && Shaped(t) && PanelShaped(Size(t.w, t.h), r.panel)
                 && var after := Tick(t, r.panel, last.now, true).panel;
                    && (FastSince(r.panel.log) >= n ==> exists d :: Logs(r.panel, after, d) && d.complete)
                    && (after.log != r.panel.log && !t.forceCleanup && !t.pending.value.forceCleanup ==>
                          exists d :: Logs(r.panel, after, d) && (d.reason == StaticFastDebt <==> FastSince(r.panel.log) >= n))
  {
    hide Sound, Shaped, PanelShaped, Size, Commit, Tick, Reliable, UnitPanel, FastSince, ShowAll, CompleteDue;
    assert Counted(s, panel) by { NothingFast(); }
    RunCounts(s, panel, updates);
    var r := ShowAll(s, panel, updates).value;
    SoundShaped(r.s);
    var (t, answer) := Commit(r.s, last.frame, last.content, last.at);
    var n := r.s.policy.config.staticAfter;
    if answer.Committed? && r.s.policy.config.partialEnabled && 0 < n <= U32_MAX {
      CommitSound(r.s, last.frame, last.content, last.at);
      SoundShaped(t);
      CommitSize(r.s, last.frame, last.content, last.at);
      CommitCounts(r.s, r.panel, last);
      TickLogsRight(t, r.panel, last.now, true);
      DecisionRight(t);
      if FastSince(r.panel.log) >= n {
        assert TickDecision(t).complete by { DueMeansComplete(t); }
        CompleteIsLogged(t, r.panel, last.now);
      }
    }
  }

  lemma NothingFast()
    ensures FastSince([]) == 0
  {
  }

  lemma DueMeansComplete(s: State)
    requires Shaped(s) && s.pending.Some? && FastDebtDue(s)
    ensures TickDecision(s).complete
  {
    hide Shaped, TickDamage;
    DecisionRight(s);
  }
}
