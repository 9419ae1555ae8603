/**
  The token's stack, step by step: what each way of moving the token does to
  the goroutines that wait for it.
*/
module SchedulerStack {
  import opened Options
  import opened JobQueue
  import opened Goroutines
  import opened SchedulerInvariant

  function Top(stack: seq<nat>): nat
    requires stack != []
  {
    stack[|stack| - 1]
  }

  lemma HolderIsTop(pcs: seq<Pc>, stack: seq<nat>, g: nat)
    requires Stacked(pcs, stack) && g < |pcs| && HoldsToken(pcs[g])
    ensures g == Top(stack)
  {
    assert g in stack;
    var i :| 0 <= i < |stack| && stack[i] == g;
    assert Waits(pcs[stack[i]]) || i == |stack| - 1;
  }

  lemma WaiterIsBelow(pcs: seq<Pc>, stack: seq<nat>, g: nat) returns (i: nat)
    requires Stacked(pcs, stack) && g < |pcs| && Waits(pcs[g])
    ensures i < |stack| - 1 && stack[i] == g && stack[i + 1] == pcs[g].c
    ensures g == 0 <==> i == 0
  {
    assert g in stack;
    i :| 0 <= i < |stack| && stack[i] == g;
  }

  // The holder goes on.
  lemma SetTop(pcs: seq<Pc>, stack: seq<nat>, pc: Pc)
    requires Stacked(pcs, stack) && HoldsToken(pc)
    ensures Stacked(pcs[Top(stack) := pc], stack)
  {
  }

  // A waiter goes on waiting.
  lemma SetWaiter(pcs: seq<Pc>, stack: seq<nat>, g: nat)
    requires Stacked(pcs, stack) && g < |pcs| && pcs[g].BeforeWait?
    ensures Stacked(pcs[g := Waiting(pcs[g].c, pcs[g].back)], stack)
  {
    var i := WaiterIsBelow(pcs, stack, g);
    assert forall c :: 0 <= c < |pcs| ==> Waits(pcs[g := Waiting(pcs[g].c, pcs[g].back)][c]) == Waits(pcs[c]);
  }

  // A call outside the stack blocks.
  lemma SetOutside(pcs: seq<Pc>, stack: seq<nat>, c: nat, pc: Pc)
    requires Stacked(pcs, stack) && c < |pcs| && !Waits(pcs[c]) && !HoldsToken(pcs[c])
    requires !Waits(pc) && !HoldsToken(pc)
    ensures Stacked(pcs[c := pc], stack)
    ensures c !in stack
  {
    if c in stack {
      var i :| 0 <= i < |stack| && stack[i] == c;
      assert false;
    }
  }

  // The holder starts a new call, and waits for it.
  lemma PushNew(pcs: seq<Pc>, stack: seq<nat>)
    requires Stacked(pcs, stack)
    ensures Stacked(pcs[Top(stack) := BeforeWait(|pcs|, ToCode)] + [Code], stack + [|pcs|])
  {
    var after := pcs[Top(stack) := BeforeWait(|pcs|, ToCode)] + [Code];
    var stack' := stack + [|pcs|];
    forall c | 0 <= c < |after| && c !in stack'
      ensures !Waits(after[c]) && !HoldsToken(after[c])
    {
      assert stack'[|stack|] == |pcs| && stack'[|stack| - 1] == Top(stack);
      assert forall i :: 0 <= i < |stack| ==> stack'[i] == stack[i];
    }
  }

  // The driver resumes a call, and waits for it.
  lemma PushOld(pcs: seq<Pc>, stack: seq<nat>, c: nat, pc: Pc, back: Back)
    requires Stacked(pcs, stack) && stack == [0] && 0 < c < |pcs| && HoldsToken(pc)
    ensures Stacked(pcs[c := pc][0 := BeforeWait(c, back)], [0, c])
  {
    var after := pcs[c := pc][0 := BeforeWait(c, back)];
    forall d | 0 <= d < |after| && d !in [0, c]
      ensures !Waits(after[d]) && !HoldsToken(after[d])
    {
      assert [0, c][0] == 0 && [0, c][1] == c;
      assert d !in stack;
    }
  }

  lemma WaiterIsNext(pcs: seq<Pc>, stack: seq<nat>, g: nat)
    requires Stacked(pcs, stack) && g < |pcs| && Waits(pcs[g]) && pcs[g].c < |pcs| && HoldsToken(pcs[pcs[g].c])
    ensures |stack| > 1 && pcs[g].c == Top(stack) && g == stack[|stack| - 2]
  {
    HolderIsTop(pcs, stack, pcs[g].c);
    var k := WaiterIsBelow(pcs, stack, g);
    assert stack[k + 1] != Top(stack) || k + 1 == |stack| - 1;
  }

  lemma Below(stack: seq<nat>, d: nat)
    requires |stack| > 1 && d in stack && d != Top(stack)
    ensures d in stack[..|stack| - 1]
  {
    var i :| 0 <= i < |stack| && stack[i] == d;
    assert stack[..|stack| - 1][i] == d;
  }

  // The holder hands the token back to the goroutine that waits for it.
  lemma Pop(pcs: seq<Pc>, stack: seq<nat>, left: Pc, pc: Pc)
    requires Stacked(pcs, stack) && |stack| > 1
    requires !Waits(left) && !HoldsToken(left) && HoldsToken(pc)
    ensures Stacked(pcs[Top(stack) := left][stack[|stack| - 2] := pc], stack[..|stack| - 1])
  {
    var g := stack[|stack| - 2];
    var below := stack[..|stack| - 1];
    var after := pcs[Top(stack) := left][g := pc];
    assert Top(below) == g && g != Top(stack);
    assert forall d :: d in stack ==> d in below || d == Top(stack) by {
      forall d | d in stack && d != Top(stack)
        ensures d in below
      {
        Below(stack, d);
      }
    }
    forall d | 0 <= d < |after| && d !in below
      ensures !Waits(after[d]) && !HoldsToken(after[d])
    {
      assert d != g;
    }
    forall i | 0 <= i < |below| - 1
      ensures Waits(after[below[i]]) && after[below[i]].c == below[i + 1]
      ensures i > 0 ==> after[below[i]].back.ToCode?
    {
      assert below[i] == stack[i] && below[i + 1] == stack[i + 1] && stack[i] != g && stack[i] != Top(stack);
    }
  }
}
