/** L-system string rewriting: each iteration replaces every character by its
    rule, or keeps it when it has none. */
module LSystem {

  /** The rewriting of one character: its rule when that is a non-empty
      string, otherwise the character itself (an empty rule counts as none). */
  function Expand(c: char, rules: map<char, string>): (r: string)
    ensures |r| >= 1
    ensures c in rules && rules[c] != [] ==> r == rules[c]
    ensures c !in rules || rules[c] == [] ==> r == [c]
  {
    if c in rules && rules[c] != [] then rules[c] else [c]
  }

  /** One iteration: the expansions of the characters, left to right. */
  function Step(s: string, rules: map<char, string>): string
    decreases |s|
  {
    if |s| == 0 then [] else Step(s[..|s| - 1], rules) + Expand(s[|s| - 1], rules)
  }

  /** `n` applications of `f`, the first to `s`. */
  function Repeat(f: string -> string, s: string, n: nat): string
    decreases n
  {
    if n == 0 then s else f(Repeat(f, s, n - 1))
  }

  /** `n` iterations from the axiom. */
  function Generate(axiom: string, rules: map<char, string>, n: nat): string {
    Repeat(s => Step(s, rules), axiom, n)
  }

  /** One iteration distributes over concatenation. */
  lemma {:induction false} StepDistributes(a: string, b: string, rules: map<char, string>)
    ensures Step(a + b, rules) == Step(a, rules) + Step(b, rules)
    decreases |b|
  {
    if |b| == 0 {
      assert a + b == a;
    } else {
      var n := |b| - 1;
      var ab := a + b;
      assert ab[..|ab| - 1] == a + b[..n];
      assert ab[|ab| - 1] == b[n];
      StepDistributes(a, b[..n], rules);
      calc {
        Step(ab, rules);
        Step(a + b[..n], rules) + Expand(b[n], rules);
        (Step(a, rules) + Step(b[..n], rules)) + Expand(b[n], rules);
        Step(a, rules) + (Step(b[..n], rules) + Expand(b[n], rules));
        Step(a, rules) + Step(b, rules);
      }
    }
  }

  /** The iteration of a single character is its expansion. */
  lemma StepOfChar(c: char, rules: map<char, string>)
    ensures Step([c], rules) == Expand(c, rules)
  {
    assert [c][..0] == [];
  }

  /** No character is ever deleted: an iteration is at least as long as its
      input, and exactly as long when no character of it has a rule. */
  lemma {:induction false} StepNeverShrinks(s: string, rules: map<char, string>)
    ensures |Step(s, rules)| >= |s|
    ensures (forall i :: 0 <= i < |s| ==> s[i] !in rules || rules[s[i]] == []) ==> Step(s, rules) == s
    decreases |s|
  {
    if |s| > 0 {
      var n := |s| - 1;
      StepNeverShrinks(s[..n], rules);
      if forall i :: 0 <= i < |s| ==> s[i] !in rules || rules[s[i]] == [] {
        assert forall i :: 0 <= i < n ==> s[..n][i] == s[i];
        assert s[..n] + [s[n]] == s;
      }
    }
  }

  /** Repetition composes: `n` applications after `m` are `m + n`. */
  lemma {:induction false} RepeatComposes(f: string -> string, s: string, m: nat, n: nat)
    ensures Repeat(f, Repeat(f, s, m), n) == Repeat(f, s, m + n)
    decreases n
  {
    if n > 0 {
      RepeatComposes(f, s, m, n - 1);
    }
  }

  /** Repeating a function that never shortens its argument never shortens it
      either, and more repetitions give a result at least as long. */
  lemma {:induction false} RepeatGrows(f: string -> string, s: string, m: nat, n: nat)
    requires forall x :: |f(x)| >= |x|
    requires m <= n
    ensures |Repeat(f, s, m)| <= |Repeat(f, s, n)|
    decreases n
  {
    if m < n {
      RepeatGrows(f, s, m, n - 1);
    }
  }

  /** The length of the generated string never decreases with the number of
      iterations. */
  lemma GenerateGrows(axiom: string, rules: map<char, string>, m: nat, n: nat)
    requires m <= n
    ensures |Generate(axiom, rules, m)| <= |Generate(axiom, rules, n)|
  {
    var f := s => Step(s, rules);
    forall x ensures |f(x)| >= |x| {
      StepNeverShrinks(x, rules);
    }
    RepeatGrows(f, axiom, m, n);
  }

  /** Iterations compose: `n` iterations of the result of `m` iterations are
      `m + n` iterations of the axiom. */
  lemma GenerateComposes(axiom: string, rules: map<char, string>, m: nat, n: nat)
    ensures Generate(Generate(axiom, rules, m), rules, n) == Generate(axiom, rules, m + n)
  {
    RepeatComposes(s => Step(s, rules), axiom, m, n);
  }

  /** Without rules (or with only empty ones) the axiom is returned unchanged. */
  lemma {:induction false} NoRulesKeepsAxiom(axiom: string, rules: map<char, string>, n: nat)
    requires forall c :: c in rules ==> rules[c] == []
    ensures Generate(axiom, rules, n) == axiom
    decreases n
  {
    if n > 0 {
      NoRulesKeepsAxiom(axiom, rules, n - 1);
      StepNeverShrinks(axiom, rules);
      assert Generate(axiom, rules, n) == Step(Generate(axiom, rules, n - 1), rules);
    }
  }

  /** The loop the program runs: an outer loop over the iterations and an
      inner one that appends each character's expansion. */
  method GenerateLSystem(axiom: string, rules: map<char, string>, iterations: nat) returns (r: string)
    ensures r == Generate(axiom, rules, iterations)
    ensures |r| >= |axiom|
  {
    var current := axiom;
    var i := 0;
    while i < iterations
      invariant 0 <= i <= iterations
      invariant current == Generate(axiom, rules, i)
    {
      var next := [];
      var j := 0;
      while j < |current|
        invariant 0 <= j <= |current|
        invariant next == Step(current[..j], rules)
      {
        assert current[..j + 1][..j] == current[..j];
        next := next + Expand(current[j], rules);
        j := j + 1;
      }
      assert current[..|current|] == current;
      current := next;
      i := i + 1;
    }
    r := current;
    GenerateGrows(axiom, rules, 0, iterations);
  }
}
