/** Group commit over whole runs: the list is frozen while commit() runs, and the
home blocks on disk stand still except while a committed list is being installed. */
module LogIsolation {
  import opened LogFormat
  import opened LogStore
  import opened LogProtocol
  import opened LogSafety

  /** The steps that end a commit over list lh: emptying the header, or a crash. Of an
      empty list nothing is written, and commit() ends as end_op clears its flag. */
  predicate EndsCommit(lh: seq<nat>, l: Label) {
    l == ClearHead || l == Crash || (lh == [] && l == Finish)
  }

  /** commit() is under way, or about to start. */
  ghost predicate Committing(s: Sys) {
    s.cl.committing && s.cl.ops == map[] && !Recovering(s.phase) && (s.phase == Finishing ==> s.lh == [])
  }

  lemma {:induction false} Frozen(lay: Layout, s: Sys, ls: seq<Label>)
    requires Committing(s) && IsRun(lay, s, ls)
    requires forall i :: 0 <= i < |ls| ==> !EndsCommit(s.lh, ls[i])
    ensures RunFrom(lay, s, ls).lh == s.lh && Committing(RunFrom(lay, s, ls))
    decreases |ls|
  {
    if ls != [] {
      assert !EndsCommit(s.lh, ls[0]);
      Frozen(lay, Do(lay, s, ls[0]), ls[1..]);
    }
  }

  /** From the end_op that starts a commit until the commit ends, whatever other
      processes do, the list stays as that end_op found it and no operation begins. */
  lemma ListFrozen(lay: Layout, d: Image, ls: seq<Label>, o: nat, more: seq<Label>)
    requires ImageOk(lay, d) && IsRun(lay, Boot(d), ls) && Roomy(lay, Boot(d), ls)
    requires var s := RunFrom(lay, Boot(d), ls);
             && Enabled(lay, s, End(o)) && DoEnd(s, o).cl.committing && IsRun(lay, DoEnd(s, o), more)
             && forall i :: 0 <= i < |more| ==> !EndsCommit(s.lh, more[i])
    ensures var s := RunFrom(lay, Boot(d), ls);
            RunFrom(lay, DoEnd(s, o), more).lh == s.lh && RunFrom(lay, DoEnd(s, o), more).cl.ops == map[]
  {
    var s := RunFrom(lay, Boot(d), ls);
    BootOk(lay, d);
    RunOk(lay, Boot(d), ls);
    EndOk(lay, s, o);
    Frozen(lay, DoEnd(s, o), more);
  }

  lemma LogBlockStill(lay: Layout, d: Image, b: nat, v: Block)
    requires lay.Valid() && |d| == lay.total && lay.InLog(b)
    ensures HomeView(lay, d[b := v]) == HomeView(lay, d)
  {
  }

  predicate WritesDisk(l: Label) {
    l == CopyToLog || l == CommitHead || l == Install || l == ClearHead || l == Replay || l == Scrub
  }

  lemma DiskStill(lay: Layout, s: Sys, l: Label)
    requires Enabled(lay, s, l) && !WritesDisk(l)
    ensures Do(lay, s, l).st.disk == s.st.disk
  {
  }

  /** The header writes. */
  lemma HeadStill(lay: Layout, s: Sys, l: Label)
    requires lay.Valid() && |s.st.disk| == lay.total && Enabled(lay, s, l) && (l == CommitHead || l == ClearHead || l == Scrub)
    ensures var t := Do(lay, s, l);
            |t.st.disk| == lay.total && HomeView(lay, t.st.disk) == HomeView(lay, s.st.disk)
  {
    LogBlockStill(lay, s.st.disk, lay.start, WithHead(Content(s.st, lay.start), if l == CommitHead then s.lh else []));
  }

  lemma CopyStill(lay: Layout, s: Sys)
    requires lay.Valid() && |s.st.disk| == lay.total && Enabled(lay, s, CopyToLog) && |s.lh| < lay.size
    ensures var t := Do(lay, s, CopyToLog);
            |t.st.disk| == lay.total && HomeView(lay, t.st.disk) == HomeView(lay, s.st.disk)
  {
    var i := s.phase.next;
    LogBlockStill(lay, s.st.disk, lay.Slot(i), Content(s.st, s.lh[i]));
  }

  /** Only installing writes to home blocks on disk. */
  lemma StepStill(lay: Layout, s: Sys, l: Label)
    requires lay.Valid() && |s.st.disk| == lay.total
    requires Enabled(lay, s, l) && Fits(lay, s, l) && l != Install && l != Replay
    ensures var t := Do(lay, s, l);
            |t.st.disk| == lay.total && HomeView(lay, t.st.disk) == HomeView(lay, s.st.disk)
  {
    if l == CopyToLog {
      CopyStill(lay, s);
    } else if WritesDisk(l) {
      HeadStill(lay, s, l);
    } else {
      DiskStill(lay, s, l);
    }
  }

  lemma {:induction false} HomeStill(lay: Layout, s: Sys, ls: seq<Label>)
    requires lay.Valid() && |s.st.disk| == lay.total && IsRun(lay, s, ls) && Roomy(lay, s, ls)
    requires Install !in ls && Replay !in ls
    ensures var t := RunFrom(lay, s, ls);
            |t.st.disk| == lay.total && HomeView(lay, t.st.disk) == HomeView(lay, s.st.disk)
    decreases |ls|
  {
    if ls != [] {
      StepStill(lay, s, ls[0]);
      HomeStill(lay, Do(lay, s, ls[0]), ls[1..]);
    }
  }

  predicate Installs(p: Phase) {
    p.Installing? || p.ReadingHead? || p.Replaying?
  }

  /** Installing starts at a commit point or at a reboot. */
  lemma {:induction false} InstallNeedsCommit(lay: Layout, s: Sys, ls: seq<Label>)
    requires IsRun(lay, s, ls) && !Installs(s.phase) && CommitHead !in ls && Crash !in ls
    ensures Install !in ls && Replay !in ls
    decreases |ls|
  {
    if ls != [] {
      assert ls[0] in ls;
      InstallNeedsCommit(lay, Do(lay, s, ls[0]), ls[1..]);
    }
  }

  /** No-steal, over runs: once a list has been installed, no home block on disk
      changes before the next commit point, short of a crash. */
  lemma NoSteal(lay: Layout, d: Image, ls: seq<Label>, more: seq<Label>)
    requires ImageOk(lay, d) && IsRun(lay, Boot(d), ls) && Roomy(lay, Boot(d), ls)
    requires var s := RunFrom(lay, Boot(d), ls);
             && !Installs(s.phase) && IsRun(lay, s, more) && Roomy(lay, s, more)
             && CommitHead !in more && Crash !in more
    ensures var s := RunFrom(lay, Boot(d), ls);
            var t := RunFrom(lay, s, more);
            |s.st.disk| == lay.total == |t.st.disk| && HomeView(lay, t.st.disk) == HomeView(lay, s.st.disk)
  {
    var s := RunFrom(lay, Boot(d), ls);
    BootOk(lay, d);
    RunOk(lay, Boot(d), ls);
    InstallNeedsCommit(lay, s, more);
    HomeStill(lay, s, more);
  }
}
