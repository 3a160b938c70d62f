/** The operand stack: a LIFO of `usize` values whose underflow is absorbed,
    so that popping an empty stack yields 0 and leaves it empty. */
module Stacks {
  import opened Ints
  import opened Ops

  // Pure descriptions of what the stack operations do to the list of items,
  // the last item being the top of the stack.

  /** The value `pop` returns. */
  function Top(s: seq<nat>): nat { if s == [] then 0 else s[|s| - 1] }

  /** The items `pop` leaves behind. */
  function Rest(s: seq<nat>): seq<nat> { if s == [] then [] else s[..|s| - 1] }

  /** The items left after n pops. */
  function Drop(s: seq<nat>, n: nat): (r: seq<nat>)
    ensures |r| == if n <= |s| then |s| - n else 0
  {
    if n <= |s| then s[..|s| - n] else []
  }

  /** The values n pops return, in the order they are popped. */
  function Args(s: seq<nat>, n: nat): (r: seq<nat>)
    ensures |r| == n
  {
    seq(n, i requires 0 <= i < n => if i < |s| then s[|s| - 1 - i] else 0)
  }

  function Duplicated(s: seq<nat>): seq<nat> { Rest(s) + [Top(s), Top(s)] }

  /** The stack's `swap` as written: pop item1, pop item2, push item2, push item1. */
  function Swapped(s: seq<nat>): seq<nat>
  {
    var item1 := Top(s);
    var item2 := Top(Rest(s));
    Rest(Rest(s)) + [item2, item1]
  }

  /** `apply`: pop the operator's arity of values, the first popped into
      `terms[0]`, and push the result. */
  function Applied(s: seq<nat>, op: Op): (r: seq<nat>)
    requires AllUsize(s) && Defined(op, Args(s, Arity(op)))
    ensures AllUsize(r)
    ensures |r| == if Arity(op) <= |s| then |s| - Arity(op) + 1 else 1
  {
    Drop(s, Arity(op)) + [Eval(op, Args(s, Arity(op)))]
  }

  lemma ArgsUsize(s: seq<nat>, n: nat)
    requires AllUsize(s)
    ensures AllUsize(Args(s, n))
  {
  }

  /** Popping a stack of `usize` values gives a `usize` and leaves such a stack. */
  lemma PopUsize(s: seq<nat>)
    requires AllUsize(s)
    ensures IsUsize(Top(s)) && AllUsize(Rest(s))
  {
  }

  /** Pushing `usize` values onto a stack of them leaves such a stack. */
  lemma PushUsize(s: seq<nat>, t: seq<nat>)
    requires AllUsize(s) && AllUsize(t)
    ensures AllUsize(s + t)
  {
    forall k | 0 <= k < |s + t| ensures IsUsize((s + t)[k]) {
      if k >= |s| { assert (s + t)[k] == t[k - |s|]; }
    }
  }

  /** Popping undoes pushing. */
  lemma PopAfterPush(s: seq<nat>, v: nat)
    ensures Top(s + [v]) == v && Rest(s + [v]) == s
  {
  }

  /** Pushing back what was popped from a non-empty stack restores it. */
  lemma PushAfterPop(s: seq<nat>)
    requires s != []
    ensures Rest(s) + [Top(s)] == s
  {
  }

  /** `dupe` copies the top; on an empty stack it leaves two zeros. */
  lemma DuplicateShape(s: seq<nat>, a: nat)
    ensures Duplicated(s + [a]) == s + [a, a]
    ensures Duplicated([]) == [0, 0]
  {
    PopAfterPush(s, a);
  }

  /** `swap` as written pushes the two values back in the order they had, so
      it changes nothing on a stack of two or more; on a shorter stack it
      fills in zeros underneath. */
  lemma SwapAsWritten(s: seq<nat>)
    ensures |s| >= 2 ==> Swapped(s) == s
    ensures |s| == 1 ==> Swapped(s) == [0, s[0]]
    ensures s == [] ==> Swapped(s) == [0, 0]
  {
    if |s| >= 2 {
      var n := |s|;
      assert Rest(s) == s[..n - 1];
      assert Rest(Rest(s)) == s[..n - 2];
      assert s == s[..n - 2] + [s[n - 2], s[n - 1]];
    }
  }

  /** A binary `apply` on `s + [a, b]`, with b on top, leaves `s + [op(b, a)]`:
      the top of the stack is the left operand. */
  lemma ApplyBinary(s: seq<nat>, a: nat, b: nat, op: Op)
    requires op != NotOp && AllUsize(s) && IsUsize(a) && IsUsize(b) && Defined(op, [b, a])
    ensures Args(s + [a, b], 2) == [b, a]
    ensures Applied(s + [a, b], op) == s + [Eval(op, [b, a])]
  {
    var t := s + [a, b];
    assert AllUsize(t);
    assert Args(t, 2) == [b, a];
    assert Drop(t, 2) == s;
  }

  /** `Not` replaces the top v by 1 when v is 0 and by 0 otherwise. */
  lemma ApplyNot(s: seq<nat>, v: nat)
    requires AllUsize(s + [v])
    ensures Applied(s + [v], NotOp) == s + [if v == 0 then 1 else 0]
  {
    var t := s + [v];
    assert Args(t, 1) == [v];
    assert Drop(t, 1) == s;
  }

  /** One more pop takes the next value and shortens the rest by one. */
  lemma PopStep(s: seq<nat>, i: nat)
    ensures Args(s, i + 1) == Args(s, i) + [Top(Drop(s, i))]
    ensures Drop(s, i + 1) == Rest(Drop(s, i))
  {
    var d := Drop(s, i);
    if i < |s| {
      assert d[|d| - 1] == s[|s| - 1 - i];
    }
  }

  class Stack {
    var items: seq<nat>

    ghost predicate Valid()
      reads this
    {
      AllUsize(items)
    }

    constructor ()
      ensures Valid() && items == []
    {
      items := [];
    }

    method Push(item: nat)
      requires Valid() && IsUsize(item)
      modifies this
      ensures Valid()
      ensures items == old(items) + [item]
    {
      items := items + [item];
    }

    method Pop() returns (item: nat)
      requires Valid()
      modifies this
      ensures Valid()
      ensures old(items) == [] ==> item == 0 && items == []
      ensures old(items) != [] ==>
                item == old(items)[|old(items)| - 1] && items == old(items)[..|old(items)| - 1]
      ensures item == Top(old(items)) && items == Rest(old(items))
      ensures IsUsize(item)
    {
      if items == [] {
        item := 0;
      } else {
        item := items[|items| - 1];
        items := items[..|items| - 1];
      }
    }

    method Apply(op: Op)
      requires Valid() && Defined(op, Args(items, Arity(op)))
      modifies this
      ensures Valid()
      ensures items == Applied(old(items), op)
    {
      ArgsUsize(items, Arity(op));
      var args := new nat[Arity(op)](_ => 0);
      for i := 0 to args.Length
        invariant Valid()
        invariant args[..i] == Args(old(items), i)
        invariant items == Drop(old(items), i)
      {
        PopStep(old(items), i);
        args[i] := Pop();
      }
      assert args[..] == args[..args.Length];
      var result := Eval(op, args[..]);
      Push(result);
    }

    method Dupe()
      requires Valid()
      modifies this
      ensures Valid()
      ensures items == Duplicated(old(items))
    {
      var item := Pop();
      var duplicate := item;
      Push(item);
      Push(duplicate);
    }

    method Swap()
      requires Valid()
      modifies this
      ensures Valid()
      ensures items == Swapped(old(items))
    {
      var item1 := Pop();
      var item2 := Pop();
      Push(item2);
      Push(item1);
    }
  }
}
