/** Small programs worked through the model. */
module Examples {
  import opened Ints
  import opened Code
  import opened Stacks
  import opened Text
  import opened Grid
  import opened Runs
  import opened Engine

  /** On "@" the first tick stops the machine, so `run_for` reports `Err`. */
  lemma StopAtOnce(env: nat -> Env)
    ensures Run(Machine(env), Init("@"), 1).Halted?
  {
    var code := "@";
    assert FindNewline(code[1..]) == 0 && FindNewline(code) == 1;
    assert Lines(code) == ["@"];
    assert ByteLen(code) == 1 && MaxByteLen([code]) == 1;
    assert Row(code, 1) == [64];
    var s := Init(code);
    assert s.grid == [[64]];
    assert Fetch(s.grid, 0, 0) == 64;
    assert Decode(s) == Stop;
    assert Safe(s, env(0)) && Step(s, env(0)).stopped;
    assert Run(Machine(env), s, 0) == Running(s);
    RunLast(Machine(env), s, 0);
  }

  /** The machine a fresh VM on "94+.@" starts as. */
  const ADD_START: State := State([[57, 52, 43, 46, 64]], [], 0, 0, West, false, false, [])

  /** "94+.@" is laid out as one row of five cells. */
  lemma AddLayout()
    ensures Init("94+.@") == ADD_START
  {
    var code := "94+.@";
    assert FindNewline(code[5..]) == 0 && FindNewline(code[4..]) == 1;
    assert FindNewline(code[3..]) == 2 && FindNewline(code[2..]) == 3;
    assert FindNewline(code[1..]) == 4 && FindNewline(code) == 5;
    assert Lines(code) == [code];
    assert ByteLen(code) == 5 && MaxByteLen([code]) == 5;
    assert Row(code, 5) == [57, 52, 43, 46, 64];
  }
}
