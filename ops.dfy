/** The arithmetic kernels. Each takes its operands in the order the stack
    hands them over: `terms[0]` is the value popped first (the top of the
    stack) and is the left operand. Operands and results are `usize`; an
    overflow, an underflow or a zero divisor panics in the engine, so each
    kernel demands that it does not happen. */
module Ops {
  import opened Ints

  /** The operators the stack can apply, unary `Not` included. */
  datatype Op = AddOp | SubOp | MulOp | DivOp | RemOp | GtOp | NotOp

  function Arity(op: Op): (n: nat)
    ensures n == 1 <==> op == NotOp
    ensures 1 <= n <= 2
  {
    if op == NotOp then 1 else 2
  }

  predicate Operands(terms: seq<nat>, n: nat) { |terms| == n && AllUsize(terms) }

  function Add(terms: seq<nat>): (r: nat)
    requires Operands(terms, 2) && terms[0] + terms[1] <= USIZE_MAX
    ensures IsUsize(r)
    ensures r - terms[1] == terms[0] && r - terms[0] == terms[1]
  {
    terms[0] + terms[1]
  }

  function Sub(terms: seq<nat>): (r: nat)
    requires Operands(terms, 2) && terms[0] >= terms[1]
    ensures IsUsize(r) && r <= terms[0]
    ensures r + terms[1] == terms[0]
  {
    terms[0] - terms[1]
  }

  function Times(terms: seq<nat>): (r: nat)
    requires Operands(terms, 2) && terms[0] * terms[1] <= USIZE_MAX
    ensures IsUsize(r)
    ensures terms[1] != 0 ==> r / terms[1] == terms[0] && r % terms[1] == 0
    ensures terms[1] == 0 ==> r == 0
  {
    terms[0] * terms[1]
  }

  /** Unsigned division: the largest q with q * terms[1] <= terms[0]. */
  function Divide(terms: seq<nat>): (r: nat)
    requires Operands(terms, 2) && terms[1] != 0
    ensures IsUsize(r) && r <= terms[0]
    ensures r * terms[1] <= terms[0] < (r + 1) * terms[1]
  {
    DivisionBounds(terms[0], terms[1]);
    terms[0] / terms[1]
  }

  /** Unsigned remainder: below the divisor, and terms[0] less it is a multiple of it. */
  function Mod(terms: seq<nat>): (r: nat)
    requires Operands(terms, 2) && terms[1] != 0
    ensures IsUsize(r) && r < terms[1] && r <= terms[0]
    ensures r + Divide(terms) * terms[1] == terms[0]
  {
    terms[0] % terms[1]
  }

  lemma DivisionBounds(n: nat, d: nat)
    requires d != 0
    ensures (n / d) * d <= n < (n / d + 1) * d
    ensures n / d <= n
  {
    var q, m := n / d, n % d;
    assert n == q * d + m && 0 <= m < d;
    MulGrows(q, d);
  }

  lemma MulGrows(q: nat, d: nat)
    requires d != 0
    ensures q <= q * d && (q + 1) * d == q * d + d
  {
    if q > 0 {
      MulGrows(q - 1, d);
    }
  }

  function Gt(terms: seq<nat>): (r: nat)
    requires Operands(terms, 2)
    ensures r <= 1
    ensures r == 1 <==> terms[0] > terms[1]
  {
    if terms[0] > terms[1] then 1 else 0
  }

  function Not(terms: seq<nat>): (r: nat)
    requires Operands(terms, 1)
    ensures r <= 1
    ensures r == 1 <==> terms[0] == 0
  {
    if terms[0] != 0 then 0 else 1
  }

  /** The operands do not make the operator panic. */
  predicate Defined(op: Op, terms: seq<nat>)
    requires Operands(terms, Arity(op))
  {
    match op
    case AddOp => terms[0] + terms[1] <= USIZE_MAX
    case SubOp => terms[0] >= terms[1]
    case MulOp => terms[0] * terms[1] <= USIZE_MAX
    case DivOp => terms[1] != 0
    case RemOp => terms[1] != 0
    case GtOp => true
    case NotOp => true
  }

  /** The operator's evaluation, as the stack's `apply` calls it. */
  function Eval(op: Op, terms: seq<nat>): (r: nat)
    requires Operands(terms, Arity(op)) && Defined(op, terms)
    ensures IsUsize(r)
  {
    match op
    case AddOp => Add(terms)
    case SubOp => Sub(terms)
    case MulOp => Times(terms)
    case DivOp => Divide(terms)
    case RemOp => Mod(terms)
    case GtOp => Gt(terms)
    case NotOp => Not(terms)
  }
}
