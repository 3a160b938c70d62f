/** The virtual machine. A tick reads the cell under the instruction pointer,
    decodes it, executes it and, unless the machine has stopped, moves the
    pointer one step along its heading with wrap-around; `run_for` ticks until
    the machine stops or a tick limit is reached, counting the ticks that did
    not stop it. */
module Engine {
  import opened Ints
  import opened Code
  import Ops
  import opened Stacks
  import opened Text
  import opened Grid
  import opened Runs

  /** Everything a tick reads or changes: the grid, the stack, the location,
      the heading, the two flags, and the text printed so far. */
  datatype State = State(
    grid: seq<seq<nat>>,
    stack: seq<nat>,
    x: int,
    y: int,
    delta: Direction,
    stringMode: bool,
    stopped: bool,
    output: string)

  /** What the outside world supplies to one tick: the value a draw from
      `0..4` returns, used by `?`. */
  datatype Env = Env(roll: nat)

  datatype RunResult = Ok(ticks: nat) | Err

  /** A tick limit of 0 means no limit. */
  const FOREVER: nat := 0

  /** Every value lies in its Rust type: the grid is well formed, the stack
      holds `usize` values, the coordinates are `i64`. */
  ghost predicate Typed(s: State)
  {
    WellFormed(s.grid) && AllUsize(s.stack) && IsI64(s.x) && IsI64(s.y)
  }

  /** The location lies inside the grid. */
  ghost predicate OnGrid(s: State)
  {
    0 <= s.y < |s.grid| && 0 <= s.x < Width(s.grid)
  }

  /** A fresh machine: the laid-out program, an empty stack, at (0, 0),
      heading West, with both flags clear. */
  ghost function Init(code: string): (s: State)
    requires ByteLen(code) <= I64_MAX
    ensures Typed(s)
  {
    LayoutWellFormed(code);
    State(Layout(Lines(code)), [], 0, 0, West, false, false, [])
  }

  /** `?`: the draw picks the heading. */
  function RandomDirection(roll: nat): Direction
  {
    if roll == 0 then North
    else if roll == 1 then East
    else if roll == 2 then South
    else West
  }

  /** The instructions that hand the stack to an operator. */
  predicate Arithmetic(i: Instruction)
  {
    i.Add? || i.Sub? || i.Mul? || i.Div? || i.Mod? || i.GreaterThan? || i.Not?
  }

  /** The operator an arithmetic instruction applies. */
  function OpOf(i: Instruction): (op: Ops.Op)
    requires Arithmetic(i)
    ensures i.Not? <==> op == Ops.NotOp
  {
    match i
    case Add => Ops.AddOp
    case Sub => Ops.SubOp
    case Mul => Ops.MulOp
    case Div => Ops.DivOp
    case Mod => Ops.RemOp
    case GreaterThan => Ops.GtOp
    case Not => Ops.NotOp
  }

  /** `consume` runs without panicking: no `i64` overflow when Skip steps,
      no `usize` overflow, underflow or zero divisor in an operator, a Put
      inside the grid, a Get whose coordinates wrap to valid indices. Reading
      a number from standard input is not part of this model. */
  ghost predicate CanExecute(s: State, i: Instruction)
    requires Typed(s)
  {
    if Arithmetic(i) then
      Ops.Defined(OpOf(i), Args(s.stack, Ops.Arity(OpOf(i))))
    else
      match i
      case Skip => IsI64(s.x + Delta(s.delta).0) && IsI64(s.y + Delta(s.delta).1)
      case Put => Top(s.stack) < |s.grid| && Top(Rest(s.stack)) < Width(s.grid)
      case Get => CanFetch(s.grid, UsizeToI64(Top(Rest(s.stack))), UsizeToI64(Top(s.stack)))
      case ReadInt => false
      case _ => true
  }

  /** `consume`: the state after one instruction. */
  ghost function Execute(s: State, i: Instruction, env: Env): State
    requires Typed(s) && CanExecute(s, i)
  {
    var st := s.stack;
    if Arithmetic(i) then
      s.(stack := Applied(st, OpOf(i)))
    else
      match i
      case ReadAndPush(v) => s.(stack := st + [v])
      case NoOp => s
      case Stop => s.(stopped := true)
      case Skip => s.(x := s.x + Delta(s.delta).0, y := s.y + Delta(s.delta).1)
      case StringMode => s.(stringMode := !s.stringMode)
      case Move(dir) => s.(delta := dir)
      case MoveEastOrWest => s.(stack := Rest(st), delta := if Top(st) == 0 then East else West)
      case MoveNorthOrSouth => s.(stack := Rest(st), delta := if Top(st) == 0 then North else South)
      case MoveRandom => s.(delta := RandomDirection(env.roll))
      case Duplicate => s.(stack := Duplicated(st))
      case Swap => s.(stack := Swapped(st))
      case Pop => s.(stack := Rest(st))
      case PrintInt => s.(stack := Rest(st), output := s.output + Decimal(Top(st)))
      case PrintChr => s.(stack := Rest(st), output := s.output + [LowByte(Top(st)) as char])
      case Put =>
        s.(stack := Rest(Rest(Rest(st))),
           grid := Written(s.grid, Top(Rest(st)), Top(st), Top(Rest(Rest(st)))))
      case Get =>
        s.(stack := Rest(Rest(st)) + [Fetch(s.grid, UsizeToI64(Top(Rest(st))), UsizeToI64(Top(st)))])
      case ReadInt => s
      case ReadChr => s
  }

  /** `next_location` runs without panicking: the grid is not empty and no
      `i64` arithmetic overflows. */
  ghost predicate CanAdvance(s: State)
  {
    var step := Delta(s.delta);
    && s.grid != []
    && IsI64(s.x + step.0) && IsI64(s.y + step.1)
    && CanWrap(s.x + step.0, Width(s.grid)) && CanWrap(s.y + step.1, |s.grid|)
  }

  /** `next_location`: one step along the heading, wrapped into the grid. */
  ghost function Advance(s: State): State
    requires CanAdvance(s)
  {
    var step := Delta(s.delta);
    s.(x := Wrap(s.x + step.0, Width(s.grid)), y := Wrap(s.y + step.1, |s.grid|))
  }

  /** The instruction under the pointer. */
  ghost function Decode(s: State): Instruction
    requires Typed(s) && CanFetch(s.grid, s.x, s.y)
  {
    FromRaw(Fetch(s.grid, s.x, s.y), s.stringMode)
  }

  /** The tick from s runs without panicking. */
  ghost predicate Safe(s: State, env: Env)
  {
    && Typed(s) && CanFetch(s.grid, s.x, s.y) && CanExecute(s, Decode(s))
    && var c := Execute(s, Decode(s), env);
       c.stopped || CanAdvance(c)
  }

  /** `tick`: decode, execute, and advance unless stopped. */
  ghost function Step(s: State, env: Env): State
    requires Safe(s, env)
  {
    var c := Execute(s, Decode(s), env);
    if c.stopped then c else Advance(c)
  }

  // ---------------------------------------------------------------------
  // Runs

  /** One tick as a step of a run, env(j) being what the outside world
      supplies to tick j: a tick that would panic fails, and one that leaves
      `stopped` set halts the run. */
  ghost function Machine(env: nat -> Env): (State, nat) -> Outcome<State>
  {
    (s: State, j: nat) =>
      if Safe(s, env(j)) then
        var t := Step(s, env(j));
        if t.stopped then Halted(t) else Running(t)
      else Failed
  }

  /** The number of counted ticks a run result reports. */
  function Counted(r: RunResult): nat
  {
    if r.Ok? then r.ticks else 0
  }

  // ---------------------------------------------------------------------
  // Properties of one tick

  /** Executing a decoded instruction keeps every value in its Rust type. */
  lemma ExecuteTyped(s: State, i: Instruction, env: Env)
    requires Typed(s) && CanExecute(s, i)
    requires i.ReadAndPush? ==> IsUsize(i.value)
    ensures Typed(Execute(s, i, env))
    ensures |Execute(s, i, env).grid| == |s.grid| && Width(Execute(s, i, env).grid) == Width(s.grid)
  {
    var st := s.stack;
    PopUsize(st);
    PopUsize(Rest(st));
    PopUsize(Rest(Rest(st)));
    match i
    case ReadAndPush(v) =>
      PushUsize(st, [v]);
    case Duplicate =>
      PushUsize(Rest(st), [Top(st), Top(st)]);
    case Swap =>
      PushUsize(Rest(Rest(st)), [Top(Rest(st)), Top(st)]);
    case Put =>
      WrittenWellFormed(s.grid, Top(Rest(st)), Top(st), Top(Rest(Rest(st))));
    case Get =>
      PushUsize(Rest(Rest(st)), [Fetch(s.grid, UsizeToI64(Top(Rest(st))), UsizeToI64(Top(st)))]);
    case _ =>
  }

  /** Only `#` moves the pointer (one step along the heading), only `@` sets
      the stop flag, and only `p` changes the grid. */
  lemma ExecutePlace(s: State, i: Instruction, env: Env)
    requires Typed(s) && CanExecute(s, i)
    ensures var c := Execute(s, i, env);
      && c.x == s.x + (if i == Skip then Delta(s.delta).0 else 0)
      && c.y == s.y + (if i == Skip then Delta(s.delta).1 else 0)
      && (i == Skip ==> c.delta == s.delta)
      && (c.stopped <==> s.stopped || i == Stop)
      && (!i.Put? ==> c.grid == s.grid)
  {
  }

  /** A tick keeps every value in its Rust type and the grid's dimensions. */
  lemma StepTyped(s: State, env: Env)
    requires Safe(s, env)
    ensures Typed(Step(s, env))
    ensures |Step(s, env).grid| == |s.grid| && Width(Step(s, env).grid) == Width(s.grid)
  {
    ExecuteTyped(s, Decode(s), env);
  }

  /** A running machine stops exactly on `@`; that tick sets the flag and
      changes nothing else, the location included. */
  lemma StepStops(s: State, env: Env)
    requires Safe(s, env) && !s.stopped
    ensures Step(s, env).stopped <==> Decode(s) == Stop
    ensures Decode(s) == Stop ==> Step(s, env) == s.(stopped := true)
  {
  }

  /** A tick that does not stop a running machine moves the pointer one step
      along the heading the instruction leaves (two for `#`) and wraps it
      back into the grid; a pointer inside the grid stays inside. */
  lemma StepMoves(s: State, env: Env)
    requires Safe(s, env) && !s.stopped && Decode(s) != Stop
    ensures var step := Delta(Execute(s, Decode(s), env).delta);
      var jump := if Decode(s) == Skip then step else (0, 0);
      CanWrap(s.x + jump.0 + step.0, Width(s.grid)) && CanWrap(s.y + jump.1 + step.1, |s.grid|)
    ensures var t := Step(s, env);
      var step := Delta(Execute(s, Decode(s), env).delta);
      var jump := if Decode(s) == Skip then step else (0, 0);
      && !t.stopped
      && t.delta == Execute(s, Decode(s), env).delta
      && t.x == Wrap(s.x + jump.0 + step.0, Width(s.grid))
      && t.y == Wrap(s.y + jump.1 + step.1, |s.grid|)
      && (OnGrid(s) ==> OnGrid(t))
  {
    var i := Decode(s);
    ExecuteTyped(s, i, env);
    ExecutePlace(s, i, env);
  }

  /** A machine stopped on `@` stays as it is: every further tick is safe and
      changes nothing. */
  lemma StoppedIsFixed(s: State, env: Env)
    requires Typed(s) && CanFetch(s.grid, s.x, s.y) && s.stopped && Decode(s) == Stop
    ensures Safe(s, env) && Step(s, env) == s
  {
  }

  /** `p` pops y, then x, then v, stores v at (x, y) with no wrapping, and
      leaves every other cell as it was. */
  lemma PutStores(s: State, env: Env, rest: seq<nat>, v: nat, x: nat, y: nat)
    requires Safe(s, env) && Decode(s) == Put && s.stack == rest + [v, x, y]
    ensures y < |s.grid| && x < Width(s.grid)
    ensures var t := Execute(s, Put, env);
      && t.stack == rest
      && |t.grid| == |s.grid| && (forall j :: 0 <= j < |s.grid| ==> |t.grid[j]| == |s.grid[j]|)
      && t.grid[y][x] == v
      && (forall j, i :: 0 <= j < |s.grid| && 0 <= i < |s.grid[j]| && (j, i) != (y, x) ==>
            t.grid[j][i] == s.grid[j][i])
  {
    var st := s.stack;
    assert Top(st) == y && Rest(st) == rest + [v, x];
    assert Top(Rest(st)) == x && Rest(Rest(st)) == rest + [v];
    assert Top(Rest(Rest(st))) == v && Rest(Rest(Rest(st))) == rest;
  }

  /** `g` pops y, then x, and pushes the cell `get` reads there; coordinates
      inside the grid read their own cell. */
  lemma GetFetches(s: State, env: Env, rest: seq<nat>, x: nat, y: nat)
    requires Safe(s, env) && Decode(s) == Get && s.stack == rest + [x, y]
    ensures CanFetch(s.grid, UsizeToI64(x), UsizeToI64(y))
    ensures Execute(s, Get, env).stack == rest + [Fetch(s.grid, UsizeToI64(x), UsizeToI64(y))]
    ensures x < Width(s.grid) && y < |s.grid| ==> Execute(s, Get, env).stack == rest + [s.grid[y][x]]
  {
    var st := s.stack;
    assert Top(st) == y && Rest(st) == rest + [x];
    assert Top(Rest(st)) == x && Rest(Rest(st)) == rest;
  }

  /** An operator instruction on `rest + [a, b]`, b on top, leaves `rest`
      plus one result computed with b as the left operand. */
  lemma BinaryComputes(s: State, env: Env, rest: seq<nat>, a: nat, b: nat)
    requires Safe(s, env) && Arithmetic(Decode(s)) && !Decode(s).Not?
    requires s.stack == rest + [a, b]
    ensures var r := Execute(s, Decode(s), env).stack;
      && (Decode(s) == Add ==> r == rest + [b + a])
      && (Decode(s) == Sub ==> b >= a && r == rest + [b - a])
      && (Decode(s) == Mul ==> r == rest + [b * a])
      && (Decode(s) == Div ==> a != 0 && r == rest + [b / a])
      && (Decode(s) == Mod ==> a != 0 && r == rest + [b % a])
      && (Decode(s) == GreaterThan ==> r == rest + [if b > a then 1 else 0])
  {
    var op := OpOf(Decode(s));
    assert AllUsize(rest) by {
      forall k | 0 <= k < |rest| ensures IsUsize(rest[k]) {
        assert rest[k] == s.stack[k];
      }
    }
    assert s.stack[|rest|] == a && s.stack[|rest| + 1] == b;
    ApplyBinary(rest, a, b, op);
  }

  /** `!` replaces the top v by 1 when v is 0 and by 0 otherwise. */
  lemma NotComputes(s: State, env: Env, rest: seq<nat>, v: nat)
    requires Safe(s, env) && Decode(s) == Not && s.stack == rest + [v]
    ensures Execute(s, Not, env).stack == rest + [if v == 0 then 1 else 0]
  {
    ApplyNot(rest, v);
  }

  // ---------------------------------------------------------------------
  // The machine

  class Vm {
    const space: Space
    const stack: Stack
    const location: Location
    var delta: Direction
    var stringMode: bool
    var stopped: bool
    /** What the machine has printed. */
    ghost var output: string
    /** What the tick observer has been handed, one state per counted tick. */
    ghost var observed: seq<State>

    ghost function Abs(): State
      reads this, space, stack, location
    {
      State(space.points, stack.items, location.x, location.y, delta, stringMode, stopped, output)
    }

    ghost predicate Valid()
      reads this, space, stack, location
    {
      Typed(Abs())
    }

    constructor (code: string)
      requires ByteLen(code) <= I64_MAX
      ensures Valid() && Abs() == Init(code) && observed == []
    {
      space := new Space(code);
      stack := new Stack();
      location := new Location(0, 0);
      delta := West;
      stringMode := false;
      stopped := false;
      output := [];
      observed := [];
    }

    method NextLocation()
      requires Valid() && CanAdvance(Abs())
      modifies location
      ensures Valid() && Abs() == Advance(old(Abs()))
    {
      location.Go(delta);
      var (w, h) := space.Dims();
      location.Constrain(w, h);
    }

    method Consume(instruction: Instruction, env: Env)
      requires Valid() && CanExecute(Abs(), instruction)
      requires instruction.ReadAndPush? ==> IsUsize(instruction.value)
      modifies this, space, stack, location
      ensures Valid() && Abs() == Execute(old(Abs()), instruction, env)
      ensures observed == old(observed)
    {
      match instruction
      case NoOp =>
      case Stop =>
        stopped := true;
      case Skip =>
        location.Go(delta);
      case StringMode =>
        stringMode := !stringMode;
      case Move(dir) =>
        delta := dir;
      case MoveEastOrWest =>
        Branch(instruction, env);
      case MoveNorthOrSouth =>
        Branch(instruction, env);
      case MoveRandom =>
        delta := RandomDirection(env.roll);
      case Duplicate =>
        stack.Dupe();
      case Swap =>
        stack.Swap();
      case Pop =>
        var _ := stack.Pop();
      case Add =>
        Operate(instruction, env);
      case Sub =>
        Operate(instruction, env);
      case Mul =>
        Operate(instruction, env);
      case Div =>
        Operate(instruction, env);
      case Mod =>
        Operate(instruction, env);
      case GreaterThan =>
        Operate(instruction, env);
      case Not =>
        Operate(instruction, env);
      case PrintInt =>
        Emit(instruction, env);
      case PrintChr =>
        Emit(instruction, env);
      case Put =>
        Store(env);
      case Get =>
        Load(env);
      case ReadInt =>
        assert false;
      case ReadChr =>
      case ReadAndPush(v) =>
        stack.Push(v);
    }

    /** `_` and `|`: pop a value and head East (North) when it is 0, West
        (South) otherwise. */
    method Branch(instruction: Instruction, env: Env)
      requires Valid() && (instruction == MoveEastOrWest || instruction == MoveNorthOrSouth)
      modifies this, stack
      ensures Valid() && Abs() == Execute(old(Abs()), instruction, env)
      ensures observed == old(observed)
    {
      var v := stack.Pop();
      if instruction == MoveEastOrWest {
        delta := if v == 0 then East else West;
      } else {
        delta := if v == 0 then North else South;
      }
    }

    /** An operator instruction hands the stack to its operator. */
    method Operate(instruction: Instruction, env: Env)
      requires Valid() && Arithmetic(instruction) && CanExecute(Abs(), instruction)
      modifies stack
      ensures Valid() && Abs() == Execute(old(Abs()), instruction, env)
    {
      stack.Apply(OpOf(instruction));
    }

    /** `.` and `,`: pop a value and print it as a number or as a character. */
    method Emit(instruction: Instruction, env: Env)
      requires Valid() && (instruction == PrintInt || instruction == PrintChr)
      modifies this, stack
      ensures Valid() && Abs() == Execute(old(Abs()), instruction, env)
      ensures observed == old(observed)
    {
      var v := stack.Pop();
      if instruction == PrintInt {
        output := output + Decimal(v);
      } else {
        output := output + [LowByte(v) as char];
      }
    }

    /** `p`: pop y, x and v, and store v at (x, y). */
    method Store(env: Env)
      requires Valid() && CanExecute(Abs(), Put)
      modifies space, stack
      ensures Valid() && Abs() == Execute(old(Abs()), Put, env)
    {
      ExecuteTyped(Abs(), Put, env);
      var y := stack.Pop();
      var x := stack.Pop();
      var v := stack.Pop();
      CastRoundTrip(x);
      CastRoundTrip(y);
      var at := new Location(UsizeToI64(x), UsizeToI64(y));
      space.Set(v, at);
    }

    /** `g`: pop y and x, and push the cell read at (x, y). */
    method Load(env: Env)
      requires Valid() && CanExecute(Abs(), Get)
      modifies stack
      ensures Valid() && Abs() == Execute(old(Abs()), Get, env)
    {
      ExecuteTyped(Abs(), Get, env);
      var y := stack.Pop();
      var x := stack.Pop();
      var at := new Location(UsizeToI64(x), UsizeToI64(y));
      var v := space.Get(at);
      stack.Push(v);
    }

    method Tick(env: Env) returns (halted: bool)
      requires Valid() && Safe(Abs(), env)
      modifies this, space, stack, location
      ensures Valid() && Abs() == Step(old(Abs()), env)
      ensures halted == stopped
      ensures observed == old(observed)
    {
      var raw := space.Get(location);
      var instruction := FromRaw(raw, stringMode);
      Consume(instruction, env);
      if !stopped {
        NextLocation();
      }
      halted := stopped;
    }

    /** The tick observer is handed the current state. */
    ghost method Observe()
      modifies this
      ensures Abs() == old(Abs()) && observed == old(observed) + [Abs()]
    {
      observed := observed + [Abs()];
    }

    /** A tick taken as step j of a run from s0: the run leads to the state
        the tick leaves, halted exactly when the machine has stopped. */
    method TickOf(env: nat -> Env, ghost s0: State, j: nat) returns (halted: bool)
      requires Valid() && Run(Machine(env), s0, j) == Running(Abs())
      requires !Run(Machine(env), s0, j + 1).Failed?
      modifies this, space, stack, location
      ensures Valid() && Run(Machine(env), s0, j + 1) == (if halted then Halted(Abs()) else Running(Abs()))
      ensures observed == old(observed)
    {
      RunLast(Machine(env), s0, j);
      halted := Tick(env(j));
    }

    /** Tick until the machine stops or, with a limit, until `tickLimit`
        ticks have not stopped it. An unlimited run needs a `bound` within
        which it stops, to show that it ends. */
    method RunFor(tickLimit: nat, env: nat -> Env, ghost bound: nat) returns (r: RunResult)
      requires Valid() && IsUsize(tickLimit)
      requires tickLimit != FOREVER ==> !Run(Machine(env), Abs(), tickLimit).Failed?
      requires tickLimit == FOREVER ==> Run(Machine(env), Abs(), bound + 1).Halted? && IsUsize(bound)
      modifies this, space, stack, location
      ensures Valid()
      ensures r.Ok? ==> 0 < r.ticks && (tickLimit != FOREVER ==> r.ticks <= tickLimit)
      ensures r.Err? <==> Run(Machine(env), old(Abs()), 1).Halted?
      ensures var n := Counted(r);
        && Run(Machine(env), old(Abs()), n).Running?
        && observed == old(observed) + Trace(Machine(env), old(Abs()), n)
        && (|| Run(Machine(env), old(Abs()), n + 1) == Halted(Abs())
            || (tickLimit != FOREVER && n == tickLimit && Run(Machine(env), old(Abs()), n) == Running(Abs())))
    {
      ghost var s0 := Abs();
      ghost var next := Machine(env);
      ghost var horizon := if tickLimit != FOREVER then tickLimit else bound + 1;
      var ticks: nat := 0;
      while true
        invariant Valid()
        invariant Run(next, s0, ticks) == Running(Abs())
        invariant observed == old(observed) + Trace(next, s0, ticks)
        invariant ticks < horizon
        decreases horizon - ticks
      {
        NotFailedBefore(next, s0, ticks + 1, horizon);
        var halted := TickOf(env, s0, ticks);
        if halted {
          if ticks == 0 {
            r := Err;
          } else {
            RunningPrefix(next, s0, 1, ticks);
            r := Ok(ticks);
          }
          return;
        }
        if tickLimit == FOREVER {
          RunningBeforeHalt(next, s0, ticks + 1, bound + 1);
        }
        TraceExtend(next, s0, ticks);
        Observe();
        ticks := ticks + 1;
        if !(ticks < tickLimit || tickLimit == FOREVER) {
          RunningPrefix(next, s0, 1, ticks);
          r := Ok(ticks);
          return;
        }
      }
    }
  }
}
