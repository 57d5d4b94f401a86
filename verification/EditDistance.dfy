/** The edit distance that the structural matching pass ranks candidates by. */
module EditDistance {
  import opened Orders

  // ---- Reference: edit scripts ------------------------------------------------

  datatype Step = Keep(c: char) | Substitute(c: char, d: char) | Delete(c: char) | Insert(d: char)

  datatype Script = Empty | Snoc(init: Script, last: Step)

  ghost function Consumed(step: Step): string {
    match step
    case Keep(c) => [c]
    case Substitute(c, _) => [c]
    case Delete(c) => [c]
    case Insert(_) => []
  }

  ghost function Produced(step: Step): string {
    match step
    case Keep(c) => [c]
    case Substitute(_, d) => [d]
    case Delete(_) => []
    case Insert(d) => [d]
  }

  ghost function Source(s: Script): string {
    match s
    case Empty => []
    case Snoc(init, last) => Source(init) + Consumed(last)
  }

  ghost function Target(s: Script): string {
    match s
    case Empty => []
    case Snoc(init, last) => Target(init) + Produced(last)
  }

  ghost function StepCost(step: Step): nat {
    if step.Keep? then 0 else 1
  }

  ghost function Cost(s: Script): nat {
    match s
    case Empty => 0
    case Snoc(init, last) => Cost(init) + StepCost(last)
  }

  ghost predicate Transforms(s: Script, a: string, b: string) {
    Source(s) == a && Target(s) == b
  }

  /** `n` is the length of a shortest script from `a` to `b`. */
  ghost predicate IsShortest(a: string, b: string, n: nat) {
    && (exists s :: Transforms(s, a, b) && Cost(s) == n)
    && (forall s :: Transforms(s, a, b) ==> n <= Cost(s))
  }

  // ---- The dynamic-programming recurrence -------------------------------------

  function Table(a: string, b: string, i: nat, j: nat): nat
    requires i <= |a| && j <= |b|
  {
    if i == 0 then j
    else if j == 0 then i
    else
      Min(Min(Table(a, b, i - 1, j) + 1, Table(a, b, i, j - 1) + 1),
          Table(a, b, i - 1, j - 1) + if a[i - 1] == b[j - 1] then 0 else 1)
  }

  lemma TakeSnoc(a: string, i: nat, pre: string, c: char)
    requires i <= |a| && pre + [c] == a[..i]
    ensures i > 0 && a[i - 1] == c && pre == a[..i - 1]
  {
    assert |pre + [c]| == |pre| + 1;
    assert (pre + [c])[|pre|] == c;
    assert (pre + [c])[..|pre|] == pre;
    assert a[..i][..i - 1] == a[..i - 1];
  }

  lemma TakeLast(a: string, i: nat, pre: string, end: string)
    requires i <= |a| && |end| <= 1 && pre + end == a[..i]
    ensures |end| <= i && pre == a[..i - |end|] && (end != [] ==> a[i - 1] == end[0])
  {
    if end == [] {
      assert pre + end == pre;
    } else {
      assert end == [end[0]];
      TakeSnoc(a, i, pre, end[0]);
    }
  }

  /** One more step costs at most what the recurrence allows for it. */
  lemma TableStep(a: string, b: string, i: nat, j: nat)
    requires i <= |a| && j <= |b|
    ensures i > 0 ==> Table(a, b, i, j) <= Table(a, b, i - 1, j) + 1
    ensures j > 0 ==> Table(a, b, i, j) <= Table(a, b, i, j - 1) + 1
    ensures i > 0 && j > 0 ==> Table(a, b, i, j) <= Table(a, b, i - 1, j - 1) + if a[i - 1] == b[j - 1] then 0 else 1
  {
  }

  /** The step consumes and produces the last characters of the prefixes. */
  ghost predicate Fits(a: string, b: string, i: nat, j: nat, step: Step)
    requires i <= |a| && j <= |b|
  {
    match step
    case Keep(c) => i > 0 && j > 0 && a[i - 1] == c && b[j - 1] == c
    case Substitute(c, d) => i > 0 && j > 0 && a[i - 1] == c && b[j - 1] == d
    case Delete(c) => i > 0 && a[i - 1] == c
    case Insert(d) => j > 0 && b[j - 1] == d
  }

  lemma StepBound(a: string, b: string, i: nat, j: nat, step: Step)
    requires i <= |a| && j <= |b| && Fits(a, b, i, j, step)
    ensures Table(a, b, i, j) <= Table(a, b, i - |Consumed(step)|, j - |Produced(step)|) + StepCost(step)
  {
    TableStep(a, b, i, j);
  }

  lemma LastStepFits(a: string, b: string, i: nat, j: nat, init: Script, last: Step)
    requires i <= |a| && j <= |b| && Transforms(Snoc(init, last), a[..i], b[..j])
    ensures Fits(a, b, i, j, last)
    ensures Transforms(init, a[..i - |Consumed(last)|], b[..j - |Produced(last)|])
  {
    TakeLast(a, i, Source(init), Consumed(last));
    TakeLast(b, j, Target(init), Produced(last));
  }

  /** No script from one prefix to the other is cheaper than the table entry. */
  lemma {:induction false} TableIsLowerBound(a: string, b: string, i: nat, j: nat, s: Script)
    requires i <= |a| && j <= |b|
    requires Transforms(s, a[..i], b[..j])
    ensures Table(a, b, i, j) <= Cost(s)
  {
    match s
    case Empty =>
    case Snoc(init, last) =>
      LastStepFits(a, b, i, j, init, last);
      StepBound(a, b, i, j, last);
      TableIsLowerBound(a, b, i - |Consumed(last)|, j - |Produced(last)|, init);
  }

  lemma ExtendScript(t: Script, a: string, c: string, b: string, d: string, step: Step) returns (s: Script)
    requires Transforms(t, a, b) && Consumed(step) == c && Produced(step) == d
    ensures Transforms(s, a + c, b + d)
    ensures Cost(s) == Cost(t) + StepCost(step)
  {
    s := Snoc(t, step);
  }

  /** A last step that attains the table entry. */
  lemma CheapestStep(a: string, b: string, i: nat, j: nat) returns (step: Step)
    requires i <= |a| && j <= |b| && i + j > 0
    ensures Fits(a, b, i, j, step)
    ensures Table(a, b, i, j) == Table(a, b, i - |Consumed(step)|, j - |Produced(step)|) + StepCost(step)
  {
    if i == 0 {
      step := Insert(b[j - 1]);
    } else if j == 0 {
      step := Delete(a[i - 1]);
    } else if Table(a, b, i, j) == Table(a, b, i, j - 1) + 1 {
      step := Insert(b[j - 1]);
    } else if Table(a, b, i, j) == Table(a, b, i - 1, j) + 1 {
      step := Delete(a[i - 1]);
    } else {
      step := if a[i - 1] == b[j - 1] then Keep(a[i - 1]) else Substitute(a[i - 1], b[j - 1]);
    }
  }

  lemma FitsJoin(a: string, b: string, i: nat, j: nat, step: Step)
    requires i <= |a| && j <= |b| && Fits(a, b, i, j, step)
    ensures a[..i - |Consumed(step)|] + Consumed(step) == a[..i]
    ensures b[..j - |Produced(step)|] + Produced(step) == b[..j]
  {
  }

  /** Some script from one prefix to the other costs exactly the table entry. */
  lemma {:induction false} TableIsReached(a: string, b: string, i: nat, j: nat) returns (s: Script)
    requires i <= |a| && j <= |b|
    ensures Transforms(s, a[..i], b[..j]) && Cost(s) == Table(a, b, i, j)
    decreases i + j
  {
    s := Empty;
    if i + j > 0 {
      var step := CheapestStep(a, b, i, j);
      FitsJoin(a, b, i, j, step);
      var i', j' := i - |Consumed(step)|, j - |Produced(step)|;
      var t := TableIsReached(a, b, i', j');
      s := ExtendScript(t, a[..i'], Consumed(step), b[..j'], Produced(step), step);
    }
  }

  lemma WholeLowerBound(a: string, b: string, s: Script)
    requires Transforms(s, a, b)
    ensures Table(a, b, |a|, |b|) <= Cost(s)
  {
    assert a[..|a|] == a && b[..|b|] == b;
    TableIsLowerBound(a, b, |a|, |b|, s);
  }

  lemma WholeReached(a: string, b: string) returns (s: Script)
    ensures Transforms(s, a, b) && Cost(s) == Table(a, b, |a|, |b|)
  {
    assert a[..|a|] == a && b[..|b|] == b;
    s := TableIsReached(a, b, |a|, |b|);
  }

  /** The length of a shortest insert/delete/substitute script is what the table holds. */
  lemma TableIsShortest(a: string, b: string)
    ensures IsShortest(a, b, Table(a, b, |a|, |b|))
  {
    var s := WholeReached(a, b);
    forall t | Transforms(t, a, b)
      ensures Table(a, b, |a|, |b|) <= Cost(t)
    {
      WholeLowerBound(a, b, t);
    }
  }

  ghost function Distance(a: string, b: string): (n: nat)
    ensures IsShortest(a, b, n)
  {
    TableIsShortest(a, b);
    var n: nat :| IsShortest(a, b, n);
    n
  }

  // ---- Metric laws --------------------------------------------------------------

  lemma {:induction false} FreeScriptIsIdentity(s: Script)
    ensures Cost(s) == 0 ==> Source(s) == Target(s)
  {
    match s
    case Empty =>
    case Snoc(init, last) => FreeScriptIsIdentity(init);
  }

  lemma {:induction false} CopyScript(a: string) returns (s: Script)
    ensures Transforms(s, a, a) && Cost(s) == 0
  {
    if a == [] {
      s := Empty;
    } else {
      s := CopyScript(a[..|a| - 1]);
      s := Snoc(s, Keep(a[|a| - 1]));
      assert a[..|a| - 1] + [a[|a| - 1]] == a;
    }
  }

  lemma {:induction false} ReverseScript(s: Script) returns (t: Script)
    ensures Transforms(t, Target(s), Source(s)) && Cost(t) == Cost(s)
  {
    match s
    case Empty =>
      t := Empty;
    case Snoc(init, last) =>
      t := ReverseScript(init);
      t := Snoc(t, match last
                   case Keep(c) => Keep(c)
                   case Substitute(c, d) => Substitute(d, c)
                   case Delete(c) => Insert(c)
                   case Insert(d) => Delete(d));
  }

  ghost function Size(s: Script): nat {
    match s
    case Empty => 0
    case Snoc(init, _) => 1 + Size(init)
  }

  lemma SnocInjective(p: string, c: char, q: string, d: char)
    requires p + [c] == q + [d]
    ensures p == q && c == d
  {
    assert (p + [c])[..|p|] == p && (q + [d])[..|q|] == q;
    assert (p + [c])[|p|] == c && (q + [d])[|q|] == d;
  }

  /** Runs `t` after `s` in one script that costs no more than the two together. */
  lemma {:induction false} ComposeScripts(s: Script, t: Script) returns (r: Script)
    requires Target(s) == Source(t)
    ensures Transforms(r, Source(s), Target(t)) && Cost(r) <= Cost(s) + Cost(t)
    decreases Size(s) + Size(t)
  {
    if s.Snoc? && s.last.Delete? {
      r := ComposeScripts(s.init, t);
      r := Snoc(r, s.last);
    } else if t.Snoc? && t.last.Insert? {
      r := ComposeScripts(s, t.init);
      r := Snoc(r, t.last);
    } else if s.Empty? || t.Empty? {
      r := Empty;
    } else {
      var y := Produced(s.last)[0];
      SnocInjective(Target(s.init), y, Source(t.init), Consumed(t.last)[0]);
      r := ComposeScripts(s.init, t.init);
      if s.last.Insert? {
        if !t.last.Delete? {
          r := Snoc(r, Insert(Produced(t.last)[0]));
        }
      } else if t.last.Delete? {
        r := Snoc(r, Delete(s.last.c));
      } else {
        var z := Produced(t.last)[0];
        r := Snoc(r, if s.last.Keep? && t.last.Keep? then Keep(z) else Substitute(s.last.c, z));
      }
    }
  }

  lemma ShortestScript(a: string, b: string) returns (s: Script)
    ensures Transforms(s, a, b) && Cost(s) == Distance(a, b)
  {
    assert IsShortest(a, b, Distance(a, b));
    s :| Transforms(s, a, b) && Cost(s) == Distance(a, b);
  }

  lemma DistanceZeroIffEqual(a: string, b: string)
    ensures Distance(a, b) == 0 <==> a == b
  {
    var s := ShortestScript(a, b);
    FreeScriptIsIdentity(s);
    var t := CopyScript(a);
    assert a == b ==> Transforms(t, a, b);
  }

  lemma DistanceSymmetric(a: string, b: string)
    ensures Distance(a, b) == Distance(b, a)
  {
    var s := ShortestScript(a, b);
    var t := ShortestScript(b, a);
    var s' := ReverseScript(s);
    var t' := ReverseScript(t);
    assert Transforms(s', b, a) && Transforms(t', a, b);
  }

  lemma DistanceTriangle(a: string, b: string, c: string)
    ensures Distance(a, c) <= Distance(a, b) + Distance(b, c)
  {
    var s := ShortestScript(a, b);
    var t := ShortestScript(b, c);
    var r := ComposeScripts(s, t);
    assert Transforms(r, a, c);
  }

  // ---- The two-row algorithm ------------------------------------------------------

  method FillRow(a: string, b: string, i: nat, prev: array<nat>, curr: array<nat>)
    requires 0 < i <= |a| && prev != curr && prev.Length == curr.Length == |b| + 1
    requires forall j {:trigger prev[j]} :: 0 <= j <= |b| ==> prev[j] == Table(a, b, i - 1, j)
    modifies curr
    ensures forall j {:trigger curr[j]} :: 0 <= j <= |b| ==> curr[j] == Table(a, b, i, j)
  {
    curr[0] := i;
    for j := 1 to |b| + 1
      invariant forall k {:trigger curr[k]} :: 0 <= k < j ==> curr[k] == Table(a, b, i, k)
    {
      var cost := if a[i - 1] == b[j - 1] then 0 else 1;
      curr[j] := Min(Min(prev[j] + 1, curr[j - 1] + 1), prev[j - 1] + cost);
    }
  }

  /** Keeps only two rows of the table and swaps them after each character of `a`. */
  method Compute(a: string, b: string) returns (d: nat)
    ensures d == Distance(a, b)
  {
    var n, m := |a|, |b|;
    var prev: array<nat> := new nat[m + 1]((j: nat) => j);
    var curr: array<nat> := new nat[m + 1](_ => 0);
    for i := 1 to n + 1
      invariant fresh(prev) && fresh(curr) && prev != curr && prev.Length == curr.Length == m + 1
      invariant forall j {:trigger prev[j]} :: 0 <= j <= m ==> prev[j] == Table(a, b, i - 1, j)
    {
      FillRow(a, b, i, prev, curr);
      prev, curr := curr, prev;
    }
    d := prev[m];
    TableIsShortest(a, b);
  }
}
