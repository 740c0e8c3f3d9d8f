/** The keyword expressions shops buy by: a two-stack infix evaluator over text, and the
    expression trees whose truth it computes. */
module ShopExpression {
  import opened Options
  import opened Sequences

  // Operators in precedence order, as numbers; NONE is the top of an empty stack.
  const NONE := -1
  const OPEN := 0
  const CLOSE := 1
  const OR := 2
  const AND := 3
  const NOT := 4

  /** findOperator: which operator a character spells. */
  function OperatorOf(c: char): int {
    if c in "[({" then OPEN
    else if c in "])}" then CLOSE
    else if c in "|+" then OR
    else if c in "&*" then AND
    else if c in "^'" then NOT
    else NONE
  }

  predicate Blank(c: char) {
    c == ' ' || c == '\t'
  }

  /** What words are made of: neither blanks nor any of the operators' spellings. */
  predicate WordChar(c: char) {
    c !in "()[]{}|+&*^' \t"
  }

  /** The two stacks, tops last. */
  datatype Machine = Machine(ops: seq<int>, vals: seq<bool>)

  function Top(ops: seq<int>): int {
    if ops == [] then NONE else ops[|ops| - 1]
  }

  /** Popping an empty value stack gives false and leaves it empty. */
  function TopVal(vals: seq<bool>): bool {
    vals != [] && vals[|vals| - 1]
  }

  function PopVal(vals: seq<bool>): seq<bool> {
    if vals == [] then [] else vals[..|vals| - 1]
  }

  /** evaluateShopOperation. A parenthesis eats two values and leaves none. */
  function Operate(m: Machine): Machine
    requires m.ops != []
  {
    var oper, ops := m.ops[|m.ops| - 1], m.ops[..|m.ops| - 1];
    if oper == NOT then Machine(ops, PopVal(m.vals) + [!TopVal(m.vals)])
    else
      var v1, v2, rest := TopVal(m.vals), TopVal(PopVal(m.vals)), PopVal(PopVal(m.vals));
      if oper == AND then Machine(ops, rest + [v1 && v2])
      else if oper == OR then Machine(ops, rest + [v1 || v2])
      else Machine(ops, rest)
  }

  /** Operates while the top of the stack binds tighter than k. */
  function Reduce(m: Machine, k: int): Machine
    requires k >= NONE
    decreases |m.ops|
  {
    if Top(m.ops) > k then Reduce(Operate(m), k) else m
  }

  /** One operator character; None is the illegal parenthesis. */
  function FeedOperator(m: Machine, op: int): Option<Machine>
    requires OPEN <= op <= NOT
  {
    var r := if op == OPEN then m else Reduce(m, op);
    if op != CLOSE then Some(Machine(r.ops + [op], r.vals))
    else if Top(r.ops) != OPEN then None
    else Some(Machine(r.ops[..|r.ops| - 1], r.vals))
  }

  function WordLength(s: string): (n: nat)
    ensures n <= |s|
  {
    if s == "" || !WordChar(s[0]) then 0 else 1 + WordLength(s[1..])
  }

  function Scan(m: Machine, s: string, leaf: string -> bool): Option<Machine>
    decreases |s|
  {
    if s == "" then Some(m)
    else if Blank(s[0]) then Scan(m, s[1..], leaf)
    else if OperatorOf(s[0]) == NONE then
      var n := WordLength(s);
      Scan(Machine(m.ops, m.vals + [leaf(s[..n])]), s[n..], leaf)
    else
      match FeedOperator(m, OperatorOf(s[0]))
      case None => None
      case Some(t) => Scan(t, s[1..], leaf)
  }

  /** What the whole text is worth. */
  function Value(expr: string, leaf: string -> bool): bool {
    if expr == "" then true
    else match Scan(Machine([], []), expr, leaf)
         case None => false
         case Some(m) => Reduce(m, NONE).vals == [true]
  }

  // ----- the evaluator as it runs -----------------------------------------

  method EvaluateOperation(ops: seq<int>, vals: seq<bool>) returns (ops': seq<int>, vals': seq<bool>)
    requires ops != []
    ensures Machine(ops', vals') == Operate(Machine(ops, vals))
  {
    var oper := ops[|ops| - 1];
    ops' := ops[..|ops| - 1];
    if oper == NOT {
      vals' := PopVal(vals) + [!TopVal(vals)];
    } else {
      var v1, v2 := TopVal(vals), TopVal(PopVal(vals));
      vals' := PopVal(PopVal(vals));
      if oper == AND {
        vals' := vals' + [v1 && v2];
      } else if oper == OR {
        vals' := vals' + [v1 || v2];
      }
    }
  }

  method ReduceStacks(ops: seq<int>, vals: seq<bool>, k: int) returns (ops': seq<int>, vals': seq<bool>)
    requires k >= NONE
    ensures Machine(ops', vals') == Reduce(Machine(ops, vals), k)
  {
    ops', vals' := ops, vals;
    while Top(ops') > k
      invariant Reduce(Machine(ops', vals'), k) == Reduce(Machine(ops, vals), k)
      decreases |ops'|
    {
      ops', vals' := EvaluateOperation(ops', vals');
    }
  }

  /** The end of the word that begins at start. */
  method WordEnd(expr: string, start: nat) returns (i: nat)
    requires start <= |expr|
    ensures start <= i <= |expr| && i - start == WordLength(expr[start..])
  {
    i := start;
    while i < |expr| && expr[i] != ' ' && expr[i] != '\t' && OperatorOf(expr[i]) == NONE
      invariant start <= i <= |expr|
      invariant WordLength(expr[start..]) == i - start + WordLength(expr[i..])
    {
      assert expr[i..][1..] == expr[i + 1..];
      i := i + 1;
    }
  }

  lemma ScanOn(m: Machine, s: string, leaf: string -> bool)
    requires s != ""
    ensures OperatorOf(s[0]) >= NONE && (!Blank(s[0]) && OperatorOf(s[0]) == NONE ==> WordLength(s) > 0)
    ensures Scan(m, s, leaf) ==
            if Blank(s[0]) then Scan(m, s[1..], leaf)
            else if OperatorOf(s[0]) == NONE then
              var n := WordLength(s);
              Scan(Machine(m.ops, m.vals + [leaf(s[..n])]), s[n..], leaf)
            else
              match FeedOperator(m, OperatorOf(s[0]))
              case None => None
              case Some(t) => Scan(t, s[1..], leaf)
  {
  }

  lemma NothingToScan(m: Machine, leaf: string -> bool)
    ensures Scan(m, "", leaf) == Some(m)
  {
  }

  method EvaluateShopExpression(expr: string, leaf: string -> bool) returns (r: bool)
    ensures r == Value(expr, leaf)
  {
    hide Scan, WordLength, OperatorOf, Reduce;
    if expr == "" {
      return true;
    }
    var ops: seq<int>, vals: seq<bool> := [], [];
    var i := 0;
    while i < |expr|
      invariant 0 <= i <= |expr|
      invariant Scan(Machine(ops, vals), expr[i..], leaf) == Scan(Machine([], []), expr, leaf)
    {
      ghost var s := expr[i..];
      ScanOn(Machine(ops, vals), s, leaf);
      if expr[i] == ' ' || expr[i] == '\t' {
        assert s[1..] == expr[i + 1..];
        i := i + 1;
        continue;
      }
      var op := OperatorOf(expr[i]);
      if op == NONE {
        var start := i;
        i := WordEnd(expr, start);
        assert s[..i - start] == expr[start..i] && s[i - start..] == expr[i..];
        vals := vals + [leaf(expr[start..i])];
        continue;
      }
      if op != OPEN {
        ops, vals := ReduceStacks(ops, vals, op);
      }
      if op == CLOSE {
        if Top(ops) != OPEN {
          return false;
        }
        ops := ops[..|ops| - 1];
      } else {
        ops := ops + [op];
      }
      assert s[1..] == expr[i + 1..];
      i := i + 1;
    }
    assert expr[i..] == "";
    NothingToScan(Machine(ops, vals), leaf);
    ops, vals := ReduceStacks(ops, vals, NONE);
    if |vals| == 0 {
      return false;
    }
    r := vals[|vals| - 1];
    if |vals| > 1 {
      return false;
    }
    assert vals == [r];
  }

  // ----- expression trees and their text ----------------------------------

  /** An operator or a parenthesis as written, with the blanks after it. */
  datatype Mark = Mark(sym: char, gap: string)

  datatype Expr =
    | Word(text: string, gap: string)
    | Neg(sign: Mark, e: Expr)
    | Conj(l: Expr, sign: Mark, r: Expr)
    | Disj(l: Expr, sign: Mark, r: Expr)
    | Paren(left: Mark, e: Expr, right: Mark)

  /** How tightly the outermost operator binds; words and parentheses bind tightest. */
  function Level(e: Expr): int {
    match e
    case Disj(_, _, _) => OR
    case Conj(_, _, _) => AND
    case _ => NOT
  }

  function Truth(e: Expr, leaf: string -> bool): bool {
    match e
    case Word(text, _) => leaf(text)
    case Neg(_, e) => !Truth(e, leaf)
    case Conj(l, _, r) => Truth(l, leaf) && Truth(r, leaf)
    case Disj(l, _, r) => Truth(l, leaf) || Truth(r, leaf)
    case Paren(_, e, _) => Truth(e, leaf)
  }

  function Spell(m: Mark): string {
    [m.sym] + m.gap
  }

  function Print(e: Expr): string {
    match e
    case Word(text, gap) => text + gap
    case Neg(sign, e) => Spell(sign) + Print(e)
    case Conj(l, sign, r) => Print(l) + Spell(sign) + Print(r)
    case Disj(l, sign, r) => Print(l) + Spell(sign) + Print(r)
    case Paren(left, e, right) => Spell(left) + Print(e) + Spell(right)
  }

  predicate Blanks(s: string) {
    forall c | c in s :: c == ' ' || c == '\t'
  }

  /** One of the ways to write an operator, with any blanks after it. */
  predicate Spells(m: Mark, op: int) {
    && Blanks(m.gap)
    && if op == OPEN then m.sym == '(' || m.sym == '[' || m.sym == '{'
       else if op == CLOSE then m.sym == ')' || m.sym == ']' || m.sym == '}'
       else if op == OR then m.sym == '|' || m.sym == '+'
       else if op == AND then m.sym == '&' || m.sym == '*'
       else op == NOT && (m.sym == '^' || m.sym == '\'')
  }

  /** Words are words, marks spell their operators in any way they can be spelt, and there are
      parentheses at least where precedence needs them. */
  predicate Legible(e: Expr) {
    match e
    case Word(text, gap) => text != "" && (forall c | c in text :: WordChar(c)) && Blanks(gap)
    case Neg(sign, e) => Spells(sign, NOT) && Legible(e) && Level(e) >= NOT
    case Conj(l, sign, r) => Spells(sign, AND) && Legible(l) && Legible(r) && Level(l) >= AND && Level(r) >= AND
    case Disj(l, sign, r) => Spells(sign, OR) && Legible(l) && Legible(r)
    case Paren(left, e, right) => Spells(left, OPEN) && Legible(e) && Spells(right, CLOSE)
  }

  /** The machine after the text of e: what scanning it amounts to. */
  function After(e: Expr, m: Machine, leaf: string -> bool): Machine {
    match e
    case Word(text, _) => Machine(m.ops, m.vals + [leaf(text)])
    case Neg(_, e) => After(e, Machine(m.ops + [NOT], m.vals), leaf)
    case Conj(l, _, r) =>
      var t := Reduce(After(l, m, leaf), AND);
      After(r, Machine(t.ops + [AND], t.vals), leaf)
    case Disj(l, _, r) =>
      var t := Reduce(After(l, m, leaf), OR);
      After(r, Machine(t.ops + [OR], t.vals), leaf)
    case Paren(_, e, _) =>
      var t := Reduce(After(e, Machine(m.ops + [OPEN], m.vals), leaf), CLOSE);
      Machine(if t.ops == [] then [] else t.ops[..|t.ops| - 1], t.vals)
  }

  // ----- chains -----------------------------------------------------------

  function Comb(k: int, a: bool, b: bool): bool {
    if k == AND then a && b else a || b
  }

  /** a1 op (a2 op (... an)): what equal operators left on the stack amount to. */
  function Chain(k: int, vs: seq<bool>): bool
    requires vs != []
  {
    if |vs| == 1 then vs[0] else Comb(k, vs[0], Chain(k, vs[1..]))
  }

  lemma {:induction false} ChainJoins(k: int, vs: seq<bool>, ws: seq<bool>)
    requires vs != [] && ws != []
    ensures Chain(k, vs + ws) == Comb(k, Chain(k, vs), Chain(k, ws))
  {
    assert (vs + ws)[1..] == vs[1..] + ws;
    if |vs| > 1 {
      ChainJoins(k, vs[1..], ws);
    } else {
      assert vs[1..] + ws == ws;
    }
  }

  function Times(op: int, n: nat): seq<int> {
    seq(n, _ => op)
  }

  function NotTimes(n: nat, b: bool): bool {
    if n == 0 then b else !NotTimes(n - 1, b)
  }

  lemma {:induction false} ReduceTwice(m: Machine, j: int, k: int)
    requires NONE <= k <= j
    ensures Reduce(Reduce(m, j), k) == Reduce(m, k)
    decreases |m.ops|
  {
    if Top(m.ops) > j {
      ReduceTwice(Operate(m), j, k);
    }
  }

  lemma OperateBinary(ops: seq<int>, vals: seq<bool>, j: int, a: bool, b: bool)
    requires j == AND || j == OR
    ensures Operate(Machine(ops + [j], vals + [a, b])) == Machine(ops, vals + [Comb(j, a, b)])
  {
    var m := Machine(ops + [j], vals + [a, b]);
    assert m.ops[..|m.ops| - 1] == ops;
    assert PopVal(m.vals) == vals + [a] && PopVal(vals + [a]) == vals;
  }

  /** A run of equal operators above a looser one reduces to its chain. */
  lemma {:induction false} ReduceChain(ops: seq<int>, vals: seq<bool>, j: int, vs: seq<bool>, k: int)
    requires NONE <= k < j && (j == AND || j == OR) && Top(ops) <= k && vs != []
    ensures Reduce(Machine(ops + Times(j, |vs| - 1), vals + vs), k) == Machine(ops, vals + [Chain(j, vs)])
    decreases |vs|
  {
    hide Reduce, Chain, Times;
    if |vs| == 1 {
      ReduceOne(ops, vals, j, vs, k);
    } else {
      var n := |vs|;
      var init, a, b := vs[..n - 2], vs[n - 2], vs[n - 1];
      var us := init + [Comb(j, a, b)];
      assert vs == init + [a, b];
      ReduceLast(ops, vals, j, init, a, b, k);
      ReduceChain(ops, vals, j, us, k);
      ChainLast(j, init, a, b);
    }
  }

  lemma ReduceOne(ops: seq<int>, vals: seq<bool>, j: int, vs: seq<bool>, k: int)
    requires NONE <= k && Top(ops) <= k && |vs| == 1
    ensures Reduce(Machine(ops + Times(j, |vs| - 1), vals + vs), k) == Machine(ops, vals + [Chain(j, vs)])
  {
    assert ops + Times(j, 0) == ops && vs == [vs[0]];
  }

  lemma ReduceLast(ops: seq<int>, vals: seq<bool>, j: int, init: seq<bool>, a: bool, b: bool, k: int)
    requires NONE <= k < j && (j == AND || j == OR)
    ensures Reduce(Machine(ops + Times(j, |init| + 1), vals + (init + [a, b])), k) ==
            Reduce(Machine(ops + Times(j, |init|), vals + (init + [Comb(j, a, b)])), k)
  {
    var below := ops + Times(j, |init|);
    assert ops + Times(j, |init| + 1) == below + [j];
    assert vals + (init + [a, b]) == (vals + init) + [a, b];
    assert vals + (init + [Comb(j, a, b)]) == (vals + init) + [Comb(j, a, b)];
    OperateBinary(below, vals + init, j, a, b);
    assert Top(below + [j]) == j;
  }

  lemma ChainLast(j: int, vs: seq<bool>, a: bool, b: bool)
    ensures Chain(j, vs + [Comb(j, a, b)]) == Chain(j, vs + [a, b])
  {
    assert Chain(j, [a, b]) == Comb(j, a, b) by {
      assert [a, b][1..] == [b];
    }
    if vs == [] {
      assert vs + [Comb(j, a, b)] == [Comb(j, a, b)] && vs + [a, b] == [a, b];
    } else {
      ChainJoins(j, vs, [Comb(j, a, b)]);
      ChainJoins(j, vs, [a, b]);
    }
  }

  lemma {:induction false} ReduceNots(ops: seq<int>, vals: seq<bool>, n: nat, b: bool, k: int)
    requires NONE <= k < NOT && Top(ops) <= k
    ensures Reduce(Machine(ops + Times(NOT, n), vals + [b]), k) == Machine(ops, vals + [NotTimes(n, b)])
  {
    var m := Machine(ops + Times(NOT, n), vals + [b]);
    if n == 0 {
      assert m.ops == ops;
    } else {
      assert Top(m.ops) == NOT;
      assert m.ops[..|m.ops| - 1] == ops + Times(NOT, n - 1);
      assert Operate(m) == Machine(ops + Times(NOT, n - 1), vals + [!b]);
      ReduceNots(ops, vals, n - 1, !b, k);
      NotsCommute(n - 1, b);
    }
  }

  lemma {:induction false} NotsCommute(n: nat, b: bool)
    ensures NotTimes(n, !b) == !NotTimes(n, b)
  {
    if n > 0 {
      NotsCommute(n - 1, b);
    }
  }

  // ----- what is left on the stacks ---------------------------------------

  /** Reduced at k, the text of an expression has left the base alone and put on it a run of k's
      whose chain is b. */
  ghost predicate Settles(base: Machine, m: Machine, k: int, b: bool)
    requires k >= NONE
  {
    exists vs: seq<bool> ::
      && vs != [] && (k != OR && k != AND ==> |vs| == 1)
      && Reduce(m, k) == Machine(base.ops + Times(k, |vs| - 1), base.vals + vs)
      && Chain(k, vs) == b
  }

  /** From settled at a binary operator to settled at anything looser. */
  lemma SettlesLooser(base: Machine, m: Machine, j: int, k: int, b: bool)
    requires j == AND || j == OR
    requires Settles(base, m, j, b) && NONE <= k < j && Top(base.ops) <= k
    ensures Settles(base, m, k, b)
  {
    var vs: seq<bool> :| vs != [] && Reduce(m, j) == Machine(base.ops + Times(j, |vs| - 1), base.vals + vs) && Chain(j, vs) == b;
    ReduceTwice(m, j, k);
    ReduceChain(base.ops, base.vals, j, vs, k);
    SettlesOne(base, m, k, b);
  }

  lemma SettlesOne(base: Machine, m: Machine, k: int, b: bool)
    requires k >= NONE && Reduce(m, k) == Machine(base.ops, base.vals + [b])
    ensures Settles(base, m, k, b)
  {
    var vs := [b];
    assert base.ops + Times(k, |vs| - 1) == base.ops;
    assert Chain(k, vs) == b;
  }

  /** What follows a negation, or is one: the pending signs above one value. */
  lemma {:induction false} Negated(e: Expr, m: Machine, leaf: string -> bool) returns (n: nat, b: bool)
    requires Legible(e) && Level(e) >= NOT && Top(m.ops) <= NOT
    ensures After(e, m, leaf) == Machine(m.ops + Times(NOT, n), m.vals + [b])
    ensures NotTimes(n, b) == Truth(e, leaf)
    decreases e, 0
  {
    match e
    case Word(text, _) =>
      n, b := 0, leaf(text);
      assert m.ops + Times(NOT, 0) == m.ops;
    case Neg(_, inner) =>
      var m' := Machine(m.ops + [NOT], m.vals);
      var i: nat;
      i, b := Negated(inner, m', leaf);
      n := i + 1;
      assert m.ops + [NOT] + Times(NOT, i) == m.ops + Times(NOT, n);
    case Paren(_, inner, _) =>
      var m' := Machine(m.ops + [OPEN], m.vals);
      Settled(inner, m', CLOSE, leaf);
      n, b := 0, Truth(inner, leaf);
      var vs: seq<bool> :| |vs| == 1 && Reduce(After(inner, m', leaf), CLOSE) ==
                           Machine(m'.ops + Times(CLOSE, |vs| - 1), m'.vals + vs) && Chain(CLOSE, vs) == b;
      assert m'.ops + Times(CLOSE, 0) == m'.ops && m'.ops[..|m'.ops| - 1] == m.ops;
      assert m.ops + Times(NOT, 0) == m.ops && vs == [b];
  }

  /** The text of an expression, started where nothing on the stack binds tighter, leaves its
      truth value at every level at which it may be followed. */
  lemma {:induction false} Settled(e: Expr, m: Machine, k: int, leaf: string -> bool)
    requires Legible(e) && NONE <= k <= AND && k <= Level(e) && Top(m.ops) <= k
    ensures Settles(m, After(e, m, leaf), k, Truth(e, leaf))
    decreases e, 1
  {
    match e
    case Conj(l, _, r) =>
      var t := Reduce(After(l, m, leaf), AND);
      Settled(l, m, AND, leaf);
      Settled(r, Machine(t.ops + [AND], t.vals), AND, leaf);
      Joined(m, After(l, m, leaf), After(e, m, leaf), AND, Truth(l, leaf), Truth(r, leaf));
      if k < AND { SettlesLooser(m, After(e, m, leaf), AND, k, Truth(e, leaf)); }
    case Disj(l, _, r) =>
      var t := Reduce(After(l, m, leaf), OR);
      Settled(l, m, OR, leaf);
      Settled(r, Machine(t.ops + [OR], t.vals), OR, leaf);
      Joined(m, After(l, m, leaf), After(e, m, leaf), OR, Truth(l, leaf), Truth(r, leaf));
      if k < OR { SettlesLooser(m, After(e, m, leaf), OR, k, Truth(e, leaf)); }
    case _ =>
      var n, b := Negated(e, m, leaf);
      ReduceNots(m.ops, m.vals, n, b, k);
      SettlesOne(m, After(e, m, leaf), k, Truth(e, leaf));
  }

  /** Left operand, operator, right operand: the two runs and the operator between them make one. */
  lemma Joined(base: Machine, l: Machine, r: Machine, j: int, bl: bool, br: bool)
    requires (j == AND || j == OR) && Settles(base, l, j, bl)
    requires Settles(Machine(Reduce(l, j).ops + [j], Reduce(l, j).vals), r, j, br)
    ensures Settles(base, r, j, Comb(j, bl, br))
  {
    var t := Reduce(l, j);
    var vs: seq<bool> :| vs != [] && t == Machine(base.ops + Times(j, |vs| - 1), base.vals + vs) && Chain(j, vs) == bl;
    var ws: seq<bool> :| ws != [] && Reduce(r, j) == Machine(t.ops + [j] + Times(j, |ws| - 1), t.vals + ws) && Chain(j, ws) == br;
    JoinedBy(base, r, j, vs, ws);
  }

  lemma JoinedBy(base: Machine, r: Machine, j: int, vs: seq<bool>, ws: seq<bool>)
    requires (j == AND || j == OR) && vs != [] && ws != []
    requires Reduce(r, j) ==
             Machine(base.ops + Times(j, |vs| - 1) + [j] + Times(j, |ws| - 1), (base.vals + vs) + ws)
    ensures Settles(base, r, j, Comb(j, Chain(j, vs), Chain(j, ws)))
  {
    ChainJoins(j, vs, ws);
    hide *;
    var m, us := Reduce(r, j), vs + ws;
    assert m.ops == base.ops + Times(j, |us| - 1) by {
      TimesJoin(base.ops, j, |vs| - 1, |ws| - 1);
      assert |us| - 1 == (|vs| - 1) + (|ws| - 1) + 1;
    }
    assert m.vals == base.vals + us by {
      Associates(base.vals, vs, ws);
    }
    SettlesBy(base, r, j, us);
  }

  lemma SettlesBy(base: Machine, m: Machine, k: int, vs: seq<bool>)
    requires k >= NONE && vs != [] && (k != OR && k != AND ==> |vs| == 1)
    requires Reduce(m, k).ops == base.ops + Times(k, |vs| - 1) && Reduce(m, k).vals == base.vals + vs
    ensures Settles(base, m, k, Chain(k, vs))
  {
    assert Reduce(m, k) == Machine(base.ops + Times(k, |vs| - 1), base.vals + vs);
  }

  lemma TimesJoin(ops: seq<int>, j: int, a: nat, b: nat)
    ensures ops + Times(j, a) + [j] + Times(j, b) == ops + Times(j, a + b + 1)
  {
  }

  // ----- reading the text -------------------------------------------------

  /** The text that follows does not run on from a word. */
  predicate Ends(rest: string) {
    rest == "" || !WordChar(rest[0])
  }

  lemma {:induction false} SkipBlanks(m: Machine, gap: string, rest: string, leaf: string -> bool)
    requires Blanks(gap)
    ensures Scan(m, gap + rest, leaf) == Scan(m, rest, leaf)
  {
    if gap == "" {
      assert gap + rest == rest;
    } else {
      assert gap[0] in gap && (gap + rest)[0] == gap[0];
      assert (gap + rest)[1..] == gap[1..] + rest;
      assert forall c | c in gap[1..] :: c in gap;
      SkipBlanks(m, gap[1..], rest, leaf);
    }
  }

  lemma {:induction false} WordIsWhole(text: string, rest: string)
    requires (forall c | c in text :: WordChar(c)) && Ends(rest)
    ensures WordLength(text + rest) == |text|
  {
    if text == "" {
      assert text + rest == rest;
    } else {
      assert text[0] in text && (text + rest)[0] == text[0];
      assert (text + rest)[1..] == text[1..] + rest;
      WordIsWhole(text[1..], rest);
    }
  }

  lemma GapEnds(gap: string, rest: string)
    requires Blanks(gap) && Ends(rest)
    ensures Ends(gap + rest)
  {
    if gap == "" {
      assert gap + rest == rest;
    } else {
      assert gap[0] in gap && (gap + rest)[0] == gap[0];
    }
  }

  lemma ScanWord(m: Machine, text: string, gap: string, rest: string, leaf: string -> bool)
    requires text != "" && (forall c | c in text :: WordChar(c)) && Blanks(gap) && Ends(rest)
    ensures Scan(m, text + gap + rest, leaf) == Scan(Machine(m.ops, m.vals + [leaf(text)]), rest, leaf)
  {
    var s := text + gap + rest;
    assert s == text + (gap + rest) && text[0] in text && s[0] == text[0];
    GapEnds(gap, rest);
    WordIsWhole(text, gap + rest);
    assert s[..|text|] == text && s[|text|..] == gap + rest;
    SkipBlanks(Machine(m.ops, m.vals + [leaf(text)]), gap, rest, leaf);
  }

  lemma ScanMark(m: Machine, sign: Mark, op: int, rest: string, leaf: string -> bool)
    requires OPEN <= op <= NOT && Spells(sign, op)
    ensures Scan(m, Spell(sign) + rest, leaf) ==
            match FeedOperator(m, op) case None => None case Some(t) => Scan(t, rest, leaf)
  {
    hide Scan, FeedOperator, OperatorOf, Blanks, WordLength;
    var s := Spell(sign) + rest;
    assert s[0] == sign.sym && s[1..] == sign.gap + rest;
    ScanOn(m, s, leaf);
    SpeltSo(sign, op);
    match FeedOperator(m, op)
    case None =>
    case Some(t) => SkipBlanks(t, sign.gap, rest, leaf);
  }

  /** Each way to write an operator is read as that operator. */
  lemma SpeltSo(sign: Mark, op: int)
    requires OPEN <= op <= NOT && Spells(sign, op)
    ensures OperatorOf(sign.sym) == op && !Blank(sign.sym) && Blanks(sign.gap)
  {
  }

  lemma SpellEnds(sign: Mark, op: int, rest: string)
    requires OPEN <= op && Spells(sign, op)
    ensures Ends(Spell(sign) + rest)
  {
    assert (Spell(sign) + rest)[0] == sign.sym;
  }

  /** Scanning the text of a legible tree does to the stacks what After says. */
  lemma {:induction false} ScanPrint(e: Expr, m: Machine, rest: string, leaf: string -> bool)
    requires Legible(e) && Ends(rest) && Top(m.ops) <= NOT
    ensures Scan(m, Print(e) + rest, leaf) == Scan(After(e, m, leaf), rest, leaf)
  {
    hide Scan, Reduce, WordLength, WordChar, OperatorOf;
    match e
    case Word(text, gap) =>
      ScanWord(m, text, gap, rest, leaf);
    case Neg(sign, inner) =>
      Associates(Spell(sign), Print(inner), rest);
      ScanMark(m, sign, NOT, Print(inner) + rest, leaf);
      ReduceAt(m, NOT);
      ScanPrint(inner, Machine(m.ops + [NOT], m.vals), rest, leaf);
    case Conj(l, sign, r) =>
      ScanBinary(l, sign, r, AND, m, rest, leaf);
      var t := Reduce(After(l, m, leaf), AND);
      ScanPrint(l, m, Spell(sign) + (Print(r) + rest), leaf);
      ScanPrint(r, Machine(t.ops + [AND], t.vals), rest, leaf);
    case Disj(l, sign, r) =>
      ScanBinary(l, sign, r, OR, m, rest, leaf);
      var t := Reduce(After(l, m, leaf), OR);
      ScanPrint(l, m, Spell(sign) + (Print(r) + rest), leaf);
      ScanPrint(r, Machine(t.ops + [OR], t.vals), rest, leaf);
    case Paren(left, inner, right) =>
      var m' := Machine(m.ops + [OPEN], m.vals);
      ParenText(left, inner, right, rest);
      ScanMark(m, left, OPEN, Print(inner) + (Spell(right) + rest), leaf);
      SpellEnds(right, CLOSE, rest);
      ScanPrint(inner, m', Spell(right) + rest, leaf);
      ScanMark(After(inner, m', leaf), right, CLOSE, rest, leaf);
      CloseMeetsOpen(inner, m, leaf);
  }

  lemma ParenText(left: Mark, inner: Expr, right: Mark, rest: string)
    ensures Print(Paren(left, inner, right)) + rest == Spell(left) + (Print(inner) + (Spell(right) + rest))
  {
  }

  /** Nothing binds tighter than negation. */
  lemma ReduceAt(m: Machine, k: int)
    requires k == NOT
    ensures Top(m.ops) <= k ==> Reduce(m, k) == m
  {
  }

  /** The closing parenthesis of a legible tree finds the one it closes. */
  lemma CloseMeetsOpen(inner: Expr, m: Machine, leaf: string -> bool)
    requires Legible(inner)
    ensures var t := Reduce(After(inner, Machine(m.ops + [OPEN], m.vals), leaf), CLOSE);
      t.ops == m.ops + [OPEN] && t.vals == m.vals + [Truth(inner, leaf)]
  {
    var m' := Machine(m.ops + [OPEN], m.vals);
    Settled(inner, m', CLOSE, leaf);
    var vs: seq<bool> :| |vs| == 1 && Reduce(After(inner, m', leaf), CLOSE) ==
                         Machine(m'.ops + Times(CLOSE, |vs| - 1), m'.vals + vs) && Chain(CLOSE, vs) == Truth(inner, leaf);
    assert m'.ops + Times(CLOSE, 0) == m'.ops && vs == [vs[0]];
  }

  lemma ScanBinary(l: Expr, sign: Mark, r: Expr, op: int, m: Machine, rest: string, leaf: string -> bool)
    requires (op == AND || op == OR) && Spells(sign, op)
    ensures (Print(l) + Spell(sign) + Print(r)) + rest == Print(l) + (Spell(sign) + (Print(r) + rest))
    ensures Ends(Spell(sign) + (Print(r) + rest))
    ensures var t := Reduce(After(l, m, leaf), op);
      Scan(After(l, m, leaf), Spell(sign) + (Print(r) + rest), leaf) ==
      Scan(Machine(t.ops + [op], t.vals), Print(r) + rest, leaf)
  {
    hide Scan, After, Reduce, Print, Spell, Ends;
    SpellEnds(sign, op, Print(r) + rest);
    ScanMark(After(l, m, leaf), sign, op, Print(r) + rest, leaf);
  }

  lemma {:induction false} PrintsSomething(e: Expr)
    requires Legible(e)
    ensures Print(e) != ""
  {
    match e
    case Conj(l, _, _) => PrintsSomething(l);
    case Disj(l, _, _) => PrintsSomething(l);
    case _ =>
  }

  /** The evaluator computes the truth value of every expression tree, however its operators are
      spelt, whatever blanks there are, for every valuation of its words. */
  lemma EvaluatesTrees(lead: string, e: Expr, leaf: string -> bool)
    requires Blanks(lead) && Legible(e)
    ensures Value(lead + Print(e), leaf) == Truth(e, leaf)
  {
    var m, s := Machine([], []), lead + Print(e);
    PrintsSomething(e);
    SkipBlanks(m, lead, Print(e), leaf);
    assert Print(e) + "" == Print(e);
    ScanPrint(e, m, "", leaf);
    TreeSettles(e, leaf);
    hide Reduce, Print, After, Truth;
    assert s != "" && Scan(m, s, leaf) == Some(After(e, m, leaf));
  }

  lemma TreeSettles(e: Expr, leaf: string -> bool)
    requires Legible(e)
    ensures Reduce(After(e, Machine([], []), leaf), NONE).vals == [Truth(e, leaf)]
  {
    var m := Machine([], []);
    Settled(e, m, NONE, leaf);
    hide *;
    SettledAlone(m, After(e, m, leaf), Truth(e, leaf));
  }

  lemma SettledAlone(base: Machine, m: Machine, b: bool)
    requires Settles(base, m, NONE, b)
    ensures Reduce(m, NONE).vals == base.vals + [b]
  {
    var vs: seq<bool> :| |vs| == 1 && Reduce(m, NONE) ==
                         Machine(base.ops + Times(NONE, |vs| - 1), base.vals + vs) && Chain(NONE, vs) == b;
    assert vs == [b];
  }

  // ----- stray parentheses ------------------------------------------------

  function Shift(c: char): int {
    if OperatorOf(c) == OPEN then 1 else if OperatorOf(c) == CLOSE then -1 else 0
  }

  /** Parentheses opened less parentheses closed. */
  function Balance(s: string): int {
    if s == "" then 0 else Shift(s[0]) + Balance(s[1..])
  }

  /** With `open` parentheses open already, some prefix closes more than has been opened. */
  ghost predicate Stray(s: string, open: int) {
    exists i :: 0 <= i <= |s| && open + Balance(s[..i]) < 0
  }

  lemma StrayStep(s: string, open: int)
    requires s != "" && open >= 0
    ensures Stray(s, open) <==> Stray(s[1..], open + Shift(s[0]))
  {
    forall i | 1 <= i <= |s| ensures Balance(s[..i]) == Shift(s[0]) + Balance(s[1..][..i - 1]) {
      assert s[..i][1..] == s[1..][..i - 1];
    }
    if Stray(s, open) {
      var i :| 0 <= i <= |s| && open + Balance(s[..i]) < 0;
      assert i >= 1 && open + Shift(s[0]) + Balance(s[1..][..i - 1]) < 0;
    }
    if Stray(s[1..], open + Shift(s[0])) {
      var i :| 0 <= i <= |s[1..]| && open + Shift(s[0]) + Balance(s[1..][..i]) < 0;
      assert open + Balance(s[..i + 1]) < 0;
    }
  }

  lemma {:induction false} StrayPastWord(s: string, open: int)
    requires open >= 0
    ensures Stray(s, open) <==> Stray(s[WordLength(s)..], open)
    decreases |s|
  {
    if s != "" && WordChar(s[0]) {
      StrayStep(s, open);
      StrayPastWord(s[1..], open);
      assert s[1..][WordLength(s[1..])..] == s[WordLength(s)..];
    } else {
      assert s[0..] == s;
    }
  }

  function Opens(ops: seq<int>): nat {
    if ops == [] then 0 else Opens(ops[..|ops| - 1]) + if ops[|ops| - 1] == OPEN then 1 else 0
  }

  /** What an operator stack can hold. */
  predicate Stacked(ops: seq<int>) {
    forall op | op in ops :: op == OPEN || op == OR || op == AND || op == NOT
  }

  lemma {:induction false} ReduceKeepsOpens(m: Machine, k: int)
    requires k >= CLOSE && Stacked(m.ops)
    ensures var r := Reduce(m, k); Opens(r.ops) == Opens(m.ops) && Stacked(r.ops) && Top(r.ops) <= k
    decreases |m.ops|
  {
    if Top(m.ops) > k {
      assert forall op | op in Operate(m).ops :: op in m.ops;
      ReduceKeepsOpens(Operate(m), k);
    }
  }

  lemma OpensPush(ops: seq<int>, op: int)
    ensures Opens(ops + [op]) == Opens(ops) + if op == OPEN then 1 else 0
    ensures Stacked(ops) && (op == OPEN || op == OR || op == AND || op == NOT) ==> Stacked(ops + [op])
  {
    assert (ops + [op])[..|ops|] == ops;
  }

  lemma OpensPop(ops: seq<int>)
    requires Stacked(ops) && Top(ops) <= CLOSE
    ensures Top(ops) == OPEN <==> Opens(ops) != 0
    ensures Top(ops) == OPEN ==> Stacked(ops[..|ops| - 1]) && Opens(ops[..|ops| - 1]) == Opens(ops) - 1
  {
    if ops != [] {
      assert ops[|ops| - 1] in ops;
      StackedPop(ops);
    }
  }

  lemma StackedPop(ops: seq<int>)
    requires Stacked(ops) && ops != []
    ensures Stacked(ops[..|ops| - 1])
  {
    var front := ops[..|ops| - 1];
    forall op | op in front ensures op == OPEN || op == OR || op == AND || op == NOT {
      var i :| 0 <= i < |front| && front[i] == op;
      assert ops[i] == op && ops[i] in ops;
    }
  }

  lemma FeedTracksOpens(m: Machine, op: int)
    requires OPEN <= op <= NOT && Stacked(m.ops)
    ensures FeedOperator(m, op) == None <==> op == CLOSE && Opens(m.ops) == 0
    ensures FeedOperator(m, op).Some? ==>
              var t := FeedOperator(m, op).value;
              && Stacked(t.ops)
              && Opens(t.ops) == Opens(m.ops) + (if op == OPEN then 1 else if op == CLOSE then -1 else 0)
  {
    hide Reduce, Opens;
    if op == OPEN {
      OpensPush(m.ops, op);
    } else {
      ReduceKeepsOpens(m, op);
      var r := Reduce(m, op);
      if op == CLOSE {
        OpensPop(r.ops);
      } else {
        OpensPush(r.ops, op);
      }
    }
  }

  /** Scanning gives up exactly on a stray closing parenthesis. */
  lemma {:induction false} ScanRefusesStray(m: Machine, s: string, leaf: string -> bool)
    requires Stacked(m.ops)
    ensures Scan(m, s, leaf) == None <==> Stray(s, Opens(m.ops))
    decreases |s|
  {
    if s == "" {
      assert forall i | 0 <= i <= |s| :: s[..i] == "";
    } else if Blank(s[0]) {
      StrayStep(s, Opens(m.ops));
      ScanRefusesStray(m, s[1..], leaf);
    } else if OperatorOf(s[0]) == NONE {
      var n := WordLength(s);
      StrayPastWord(s, Opens(m.ops));
      ScanRefusesStray(Machine(m.ops, m.vals + [leaf(s[..n])]), s[n..], leaf);
    } else {
      var op := OperatorOf(s[0]);
      FeedTracksOpens(m, op);
      StrayStep(s, Opens(m.ops));
      match FeedOperator(m, op)
      case None => assert Balance(s[1..][..0]) == 0;
      case Some(t) => ScanRefusesStray(t, s[1..], leaf);
    }
  }

  /** A stray closing parenthesis makes any text false. */
  lemma StrayIsFalse(expr: string, leaf: string -> bool)
    requires Stray(expr, 0)
    ensures !Value(expr, leaf)
  {
    NothingStrayInNothing("");
    ScanRefusesStray(Machine([], []), expr, leaf);
  }

  lemma NothingStrayInNothing(s: string)
    ensures s == "" ==> !Stray(s, 0)
  {
    assert s == "" ==> forall i | 0 <= i <= |s| :: s[..i] == "";
  }

  // ----- from trees without parentheses -----------------------------------

  datatype Tree = Leaf(text: string) | Not(t: Tree) | Both(a: Tree, b: Tree) | Either(a: Tree, b: Tree)

  function Meaning(t: Tree, leaf: string -> bool): bool {
    match t
    case Leaf(text) => leaf(text)
    case Not(t) => !Meaning(t, leaf)
    case Both(a, b) => Meaning(a, leaf) && Meaning(b, leaf)
    case Either(a, b) => Meaning(a, leaf) || Meaning(b, leaf)
  }

  predicate WordsOnly(t: Tree) {
    match t
    case Leaf(text) => text != "" && forall c | c in text :: WordChar(c)
    case Not(t) => WordsOnly(t)
    case Both(a, b) => WordsOnly(a) && WordsOnly(b)
    case Either(a, b) => WordsOnly(a) && WordsOnly(b)
  }

  /** Parentheses only around what binds more loosely than its place allows. */
  function Guard(e: Expr, level: int): Expr {
    if Level(e) >= level then e else Paren(Mark('(', ""), e, Mark(')', ""))
  }

  function Show(t: Tree): Expr {
    match t
    case Leaf(text) => Word(text, "")
    case Not(t) => Neg(Mark('^', ""), Guard(Show(t), NOT))
    case Both(a, b) => Conj(Guard(Show(a), AND), Mark('&', ""), Guard(Show(b), AND))
    case Either(a, b) => Disj(Show(a), Mark('|', ""), Show(b))
  }

  lemma {:induction false} ShowsMeaning(t: Tree, leaf: string -> bool)
    requires WordsOnly(t)
    ensures Legible(Show(t)) && Truth(Show(t), leaf) == Meaning(t, leaf)
  {
    match t
    case Leaf(_) =>
    case Not(t) => ShowsMeaning(t, leaf);
    case Both(a, b) => ShowsMeaning(a, leaf); ShowsMeaning(b, leaf);
    case Either(a, b) => ShowsMeaning(a, leaf); ShowsMeaning(b, leaf);
  }

  /** Every tree, printed with only the parentheses that precedence needs, evaluates to its meaning. */
  lemma EvaluatesShown(t: Tree, leaf: string -> bool)
    requires WordsOnly(t)
    ensures Value(Print(Show(t)), leaf) == Meaning(t, leaf)
  {
    ShowsMeaning(t, leaf);
    EvaluatesTrees("", Show(t), leaf);
    assert "" + Print(Show(t)) == Print(Show(t));
  }

  // ----- spellings --------------------------------------------------------

  /** One spelling for each operator. */
  function Standard(c: char): char {
    if c == '+' then '|' else if c == '*' then '&' else if c == '\'' then '^'
    else if c == '[' || c == '{' then '(' else if c == ']' || c == '}' then ')' else c
  }

  function Respelt(s: string): string {
    seq(|s|, i requires 0 <= i < |s| => Standard(s[i]))
  }

  lemma RespeltFrom(s: string, n: nat)
    requires n <= |s|
    ensures Respelt(s)[n..] == Respelt(s[n..])
  {
  }

  lemma {:induction false} RespeltWord(s: string)
    ensures WordLength(Respelt(s)) == WordLength(s) && Respelt(s)[..WordLength(s)] == s[..WordLength(s)]
  {
    if s != "" && WordChar(s[0]) {
      RespeltFrom(s, 1);
      RespeltWord(s[1..]);
      var n := WordLength(s[1..]);
      assert s[..n + 1] == [s[0]] + s[1..][..n];
      assert Respelt(s)[..n + 1] == [Respelt(s)[0]] + Respelt(s)[1..][..n];
    }
  }

  lemma {:induction false} ScanRespelt(m: Machine, s: string, leaf: string -> bool)
    ensures Scan(m, Respelt(s), leaf) == Scan(m, s, leaf)
    decreases |s|
  {
    hide FeedOperator;
    if s != "" {
      RespeltFrom(s, 1);
      if Blank(s[0]) {
        ScanRespelt(m, s[1..], leaf);
      } else if OperatorOf(s[0]) == NONE {
        var n := WordLength(s);
        RespeltWord(s);
        RespeltFrom(s, n);
        ScanRespelt(Machine(m.ops, m.vals + [leaf(s[..n])]), s[n..], leaf);
      } else {
        match FeedOperator(m, OperatorOf(s[0]))
        case None =>
        case Some(t) => ScanRespelt(t, s[1..], leaf);
      }
    }
  }

  /** How the operators of a text are spelt makes no difference to what it is worth, well formed or not. */
  lemma SpellingIsFree(expr: string, leaf: string -> bool)
    ensures Value(Respelt(expr), leaf) == Value(expr, leaf)
  {
    ScanRespelt(Machine([], []), expr, leaf);
  }
}
