/** The loops of proc.c over the process table, as they run under ptable.lock. */
module ProcCode {
  import opened Wrappers
  import opened ProcTable

  /** wakeup1. */
  method Wakeup1(procs: array<Proc>, ch: Chan)
    modifies procs
    ensures procs[..] == Woken(old(procs[..]), ch)
  {
    var i := 0;
    while i < procs.Length
      invariant 0 <= i <= procs.Length
      invariant forall j :: 0 <= j < i ==> procs[j] == WokenOne(old(procs[j]), ch)
      invariant forall j :: i <= j < procs.Length ==> procs[j] == old(procs[j])
    {
      if procs[i].state == SLEEPING && procs[i].chan == ch {
        procs[i] := procs[i].(state := RUNNABLE);
      }
      i := i + 1;
    }
  }

  /** The table after exit()'s loop has been through the first n slots. */
  function Passed(ps: seq<Proc>, p: nat, initproc: nat, n: nat): (r: seq<Proc>)
    requires n <= |ps|
    ensures |r| == |ps|
  {
    if n == 0 then ps else PassOne(Passed(ps, p, initproc, n - 1), p, initproc, n - 1)
  }

  /** exit()'s loop over the children. */
  method PassChildren(procs: array<Proc>, p: nat, initproc: nat)
    modifies procs
    ensures procs[..] == Passed(old(procs[..]), p, initproc, procs.Length)
  {
    var i := 0;
    while i < procs.Length
      invariant 0 <= i <= procs.Length
      invariant procs[..] == Passed(old(procs[..]), p, initproc, i)
    {
      ghost var before := procs[..];
      if procs[i].parent == Some(p) {
        procs[i] := procs[i].(parent := Some(initproc));
        assert procs[..] == before[i := before[i].(parent := Some(initproc))];
        if procs[i].state == ZOMBIE {
          Wakeup1(procs, WaitOn(initproc));
        }
      }
      i := i + 1;
    }
  }

  /** After the loop nobody is left with an exiting parent, and nothing but parents and
      wakeups has changed. */
  lemma PassOneOk(ps: seq<Proc>, p: nat, initproc: nat, k: nat)
    requires k < |ps|
    ensures var r := PassOne(ps, p, initproc, k);
            forall i :: 0 <= i < |ps| ==>
              && r[i].parent == (if i == k && ps[i].parent == Some(p) then Some(initproc) else ps[i].parent)
              && (r[i] == ps[i].(parent := r[i].parent) || (ps[i].state == SLEEPING && ps[i].chan == WaitOn(initproc) && r[i] == ps[i].(parent := r[i].parent, state := RUNNABLE)))
    ensures ps[k].parent == Some(p) && ps[k].state == ZOMBIE ==>
              forall i :: 0 <= i < |ps| ==> !(PassOne(ps, p, initproc, k)[i].state == SLEEPING && PassOne(ps, p, initproc, k)[i].chan == WaitOn(initproc))
  {
  }

  lemma {:induction false} PassedOk(ps: seq<Proc>, p: nat, initproc: nat, n: nat)
    requires n <= |ps| && p != initproc
    ensures var r := Passed(ps, p, initproc, n);
            forall i :: 0 <= i < |ps| ==>
              && r[i].parent == (if i < n && ps[i].parent == Some(p) then Some(initproc) else ps[i].parent)
              && (r[i] == ps[i].(parent := r[i].parent) || (ps[i].state == SLEEPING && ps[i].chan == WaitOn(initproc) && r[i] == ps[i].(parent := r[i].parent, state := RUNNABLE)))
    ensures (exists i :: 0 <= i < n && ps[i].parent == Some(p) && ps[i].state == ZOMBIE) ==>
              forall i :: 0 <= i < |ps| ==> !(Passed(ps, p, initproc, n)[i].state == SLEEPING && Passed(ps, p, initproc, n)[i].chan == WaitOn(initproc))
  {
    if n > 0 {
      PassedOk(ps, p, initproc, n - 1);
      PassOneOk(Passed(ps, p, initproc, n - 1), p, initproc, n - 1);
    }
  }

  datatype Scan = Found(i: nat) | Children | Childless

  /** One pass of wait() over the table: the first zombie child is reaped. */
  method ScanChildren(procs: array<Proc>, p: nat) returns (r: Scan)
    modifies procs
    ensures match r
            case Found(i) =>
              && i < procs.Length && old(procs[i]).parent == Some(p) && old(procs[i]).state == ZOMBIE
              && (forall j :: 0 <= j < i ==> !(old(procs[j]).parent == Some(p) && old(procs[j]).state == ZOMBIE))
              && procs[..] == old(procs[..])[i := Reaped(old(procs[i]))]
            case Children =>
              && procs[..] == old(procs[..]) && (exists j :: 0 <= j < procs.Length && procs[j].parent == Some(p))
              && (forall j :: 0 <= j < procs.Length ==> !(procs[j].parent == Some(p) && procs[j].state == ZOMBIE))
            case Childless =>
              procs[..] == old(procs[..]) && forall j :: 0 <= j < procs.Length ==> procs[j].parent != Some(p)
  {
    var havekids := false;
    var i := 0;
    while i < procs.Length
      invariant 0 <= i <= procs.Length && procs[..] == old(procs[..])
      invariant havekids <==> exists j :: 0 <= j < i && procs[j].parent == Some(p)
      invariant forall j :: 0 <= j < i ==> !(procs[j].parent == Some(p) && procs[j].state == ZOMBIE)
    {
      if procs[i].parent == Some(p) {
        havekids := true;
        if procs[i].state == ZOMBIE {
          procs[i] := Reaped(procs[i]);
          return Found(i);
        }
      }
      i := i + 1;
    }
    return if havekids then Children else Childless;
  }
}
