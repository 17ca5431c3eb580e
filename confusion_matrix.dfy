/** The confusion-matrix script's handling of prediction files: the
    fixed-pattern search that extracts the test fold, the hyperparameter
    configuration index and (cross-validation only) the validation fold
    from a file name, and the loop that writes one matrix per file. */
module ConfusionMatrix {
  import opened Common
  import opened Text

  /** The groups of a match; `val` is `None` for the cross-testing pattern. */
  datatype Groups = Groups(test: string, hp: string, val: Option<string>)

  /** A pattern made of literals and greedy groups `([0-9]+)` (`digits`)
      or `([A-Za-z0-9]+)`, read from left to right. */
  datatype Pattern = Done | Lit(text: string, next: Pattern) | Plus(digits: bool, next: Pattern)

  /** `test_([A-Za-z0-9]+)_hpconfig_([0-9]+)`, the cross-testing pattern. */
  const CtPattern: Pattern := Lit("test_", Plus(false, Lit("_hpconfig_", Plus(true, Done))))

  /** `test_([A-Za-z0-9]+)_hpconfig_([0-9]+)_val_([A-Za-z0-9]+)`, the
      cross-validation pattern. */
  const CvPattern: Pattern :=
    Lit("test_", Plus(false, Lit("_hpconfig_", Plus(true, Lit("_val_", Plus(false, Done))))))

  /** The character class of a group: `[0-9]` or `[A-Za-z0-9]`. */
  predicate InClass(c: char, digits: bool) {
    if digits then IsDigit(c) else IsAlnum(c)
  }

  predicate AllInClass(s: string, digits: bool) {
    forall k :: 0 <= k < |s| ==> InClass(s[k], digits)
  }

  /** The length of the longest run of class characters starting at `i`:
      what a greedy `+` takes before it must stop. */
  function RunLen(s: string, i: nat, digits: bool): (n: nat)
    requires i <= |s|
    ensures i + n <= |s|
    ensures i + n == |s| || !InClass(s[i + n], digits)
    decreases |s| - i
  {
    if i < |s| && InClass(s[i], digits) then 1 + RunLen(s, i + 1, digits) else 0
  }

  /** `lit` occurs in `s` at `i`. */
  predicate LitAt(s: string, i: nat, lit: string) {
    i + |lit| <= |s| && s[i..i + |lit|] == lit
  }

  /** A pattern no group can run into: a literal starting with a character
      outside both classes. */
  predicate StopsGroups(p: Pattern) {
    p.Lit? && p.text != [] && !IsAlnum(p.text[0])
  }

  /** Every group is followed by the end of the pattern or by a literal it
      cannot run into, as in both of the script's patterns. */
  predicate Separated(p: Pattern) {
    match p
    case Done => true
    case Lit(_, q) => Separated(q)
    case Plus(_, q) => (q == Done || StopsGroups(q)) && Separated(q)
  }

  /** The greedy match of `p` anchored at `i`: each group takes the whole
      run of its class, and the groups are returned in order. */
  function Match(s: string, i: nat, p: Pattern): Option<seq<string>>
    requires i <= |s|
    decreases p
  {
    match p
    case Done => Some([])
    case Lit(l, q) => if LitAt(s, i, l) then Match(s, i + |l|, q) else None
    case Plus(d, q) =>
      var n := RunLen(s, i, d);
      if n == 0 then None else Cons(s[i..i + n], Match(s, i + n, q))
  }

  /** A group in front of the groups of a match of the rest, if there is one. */
  function Cons(g: string, r: Option<seq<string>>): Option<seq<string>> {
    match r
    case None => None
    case Some(gs) => Some([g] + gs)
  }

  /** The reference semantics of Python's backtracking matcher: a group
      tries its longest run first and gives back one character at a time
      until the rest of the pattern matches. */
  function MatchBack(s: string, i: nat, p: Pattern): Option<seq<string>>
    requires i <= |s|
    decreases p, |s| + 1
  {
    match p
    case Done => Some([])
    case Lit(l, q) => if LitAt(s, i, l) then MatchBack(s, i + |l|, q) else None
    case Plus(d, q) => TryRun(s, i, p, RunLen(s, i, d))
  }

  /** The group at the head of `p` taking `n` characters, or fewer. */
  function TryRun(s: string, i: nat, p: Pattern, n: nat): Option<seq<string>>
    requires p.Plus? && i + n <= |s|
    decreases p, n
  {
    if n == 0 then None
    else if MatchBack(s, i + n, p.next).Some? then Cons(s[i..i + n], MatchBack(s, i + n, p.next))
    else TryRun(s, i, p, n - 1)
  }

  /** The groups fit the pattern: one non-empty run of the right class per
      group. */
  predicate GroupsFit(p: Pattern, gs: seq<string>) {
    match p
    case Done => gs == []
    case Lit(_, q) => GroupsFit(q, gs)
    case Plus(d, q) => gs != [] && gs[0] != [] && AllInClass(gs[0], d) && GroupsFit(q, gs[1..])
  }

  /** The text the pattern matches with the given groups. */
  function Render(p: Pattern, gs: seq<string>): string {
    match p
    case Done => ""
    case Lit(l, q) => l + Render(q, gs)
    case Plus(_, q) => if gs == [] then Render(q, gs) else gs[0] + Render(q, gs[1..])
  }

  /** The last group, if the pattern ends with one, cannot go on at `e`. */
  predicate Ends(s: string, e: nat, p: Pattern)
    requires e <= |s|
  {
    match p
    case Done => true
    case Lit(_, q) => Ends(s, e, q)
    case Plus(d, q) => if q == Done then RunLen(s, e, d) == 0 else Ends(s, e, q)
  }

  lemma LitSplit(s: string, i: nat, x: string, y: string)
    requires LitAt(s, i, x + y)
    ensures LitAt(s, i, x) && LitAt(s, i + |x|, y)
  {
    assert s[i..i + |x|] == (x + y)[..|x|];
    assert s[i + |x|..i + |x| + |y|] == (x + y)[|x|..];
  }

  lemma LitJoin(s: string, i: nat, x: string, y: string)
    requires LitAt(s, i, x) && LitAt(s, i + |x|, y)
    ensures LitAt(s, i, x + y)
  {
    assert s[i..i + |x + y|] == s[i..i + |x|] + s[i + |x|..i + |x| + |y|];
  }

  lemma LitHead(s: string, i: nat, x: string)
    requires LitAt(s, i, x) && x != []
    ensures s[i] == x[0]
  {
    assert s[i..i + |x|][0] == s[i];
  }

  /** A slice of `s` occurs in `s` where it was taken. */
  lemma LitSlice(s: string, a: nat, b: nat)
    requires a <= b <= |s|
    ensures LitAt(s, a, s[a..b])
  {
  }

  /** The run `RunLen` measures is a run of the class. */
  lemma {:induction false} RunInClass(s: string, i: nat, digits: bool)
    requires i <= |s|
    ensures AllInClass(s[i..i + RunLen(s, i, digits)], digits)
    decreases |s| - i
  {
    var n := RunLen(s, i, digits);
    if n > 0 {
      RunInClass(s, i + 1, digits);
      assert s[i..i + n] == [s[i]] + s[i + 1..i + n];
    }
  }

  /** A run of class characters at `i` is taken whole by the greedy group,
      which then goes on over whatever class characters follow it. */
  lemma {:induction false} RunLenOver(s: string, i: nat, t: string, digits: bool)
    requires LitAt(s, i, t) && AllInClass(t, digits)
    ensures RunLen(s, i, digits) == |t| + RunLen(s, i + |t|, digits)
    decreases |t|
  {
    if t != [] {
      var c, u := t[0], t[1..];
      assert [c] + u == t;
      LitHead(s, i, t);
      LitSplit(s, i, [c], u);
      assert InClass(s[i], digits) && AllInClass(u, digits);
      RunLenOver(s, i + 1, u, digits);
      assert RunLen(s, i, digits) == 1 + RunLen(s, i + 1, digits);
    }
  }

  /** The run of a class ends where no class character follows. */
  lemma RunLenEnd(s: string, i: nat, digits: bool)
    requires i <= |s|
    ensures RunLen(s, i + RunLen(s, i, digits), digits) == 0
  {
  }

  lemma RunLenStops(s: string, i: nat, digits: bool)
    requires i < |s| && !IsAlnum(s[i])
    ensures RunLen(s, i, digits) == 0
  {
  }

  /** A run shorter than the longest one is followed by a class character. */
  lemma {:induction false} RunLenInside(s: string, i: nat, digits: bool, m: nat)
    requires i <= |s| && m < RunLen(s, i, digits)
    ensures InClass(s[i + m], digits)
    decreases m
  {
    if m > 0 {
      RunLenInside(s, i + 1, digits, m - 1);
    }
  }

  /** The groups of a match fit the pattern. */
  lemma {:induction false} MatchFits(s: string, i: nat, p: Pattern)
    requires i <= |s| && Match(s, i, p).Some?
    ensures GroupsFit(p, Match(s, i, p).value)
    decreases p, 1
  {
    if p.Lit? {
      MatchFits(s, i + |p.text|, p.next);
    } else if p.Plus? {
      MatchFitsGroup(s, i, p.digits, p.next);
    }
  }

  /** The step of `MatchFits` for a pattern that starts with a group. */
  lemma {:induction false} MatchFitsGroup(s: string, i: nat, d: bool, q: Pattern)
    requires i <= |s| && Match(s, i, Plus(d, q)).Some?
    ensures GroupsFit(Plus(d, q), Match(s, i, Plus(d, q)).value)
    decreases q, 2
  {
    var n := RunLen(s, i, d);
    MatchGroupParts(s, i, d, q);
    MatchFits(s, i + n, q);
    RunInClass(s, i, d);
    FitsCons(d, q, s[i..i + n], Match(s, i + n, q).value);
  }

  lemma FitsCons(d: bool, q: Pattern, g: string, rest: seq<string>)
    requires g != [] && AllInClass(g, d) && GroupsFit(q, rest)
    ensures GroupsFit(Plus(d, q), [g] + rest)
  {
    assert ([g] + rest)[1..] == rest;
  }

  /** A group that matches takes a non-empty run, and the rest of the
      pattern matches after it. */
  lemma MatchGroupParts(s: string, i: nat, d: bool, q: Pattern)
    requires i <= |s| && Match(s, i, Plus(d, q)).Some?
    ensures var n := RunLen(s, i, d);
      n > 0 && Match(s, i + n, q).Some? &&
      Match(s, i, Plus(d, q)).value == [s[i..i + n]] + Match(s, i + n, q).value
  {
    var n := RunLen(s, i, d);
    assert n > 0;
    assert Match(s, i, Plus(d, q)) == Cons(s[i..i + n], Match(s, i + n, q));
  }

  /** Groups that fit the pattern, written into `s` at `i` with the last
      group ending its run, are read back unchanged. */
  lemma {:induction false} MatchRender(s: string, i: nat, p: Pattern, gs: seq<string>)
    requires Separated(p) && GroupsFit(p, gs)
    requires LitAt(s, i, Render(p, gs)) && Ends(s, i + |Render(p, gs)|, p)
    ensures Match(s, i, p) == Some(gs)
    decreases p, 2
  {
    if p.Lit? {
      MatchRenderLit(s, i, p, gs);
    } else if p.Plus? {
      MatchRenderPlus(s, i, p, gs);
    }
  }

  /** The step of `MatchRender` for a pattern that starts with a literal. */
  lemma {:induction false} MatchRenderLit(s: string, i: nat, p: Pattern, gs: seq<string>)
    requires p.Lit? && Separated(p) && GroupsFit(p, gs)
    requires LitAt(s, i, Render(p, gs)) && Ends(s, i + |Render(p, gs)|, p)
    ensures Match(s, i, p) == Some(gs)
    decreases p, 1
  {
    var l, q := p.text, p.next;
    var tail := Render(q, gs);
    assert Render(p, gs) == l + tail;
    LitSplit(s, i, l, tail);
    assert Separated(q) && GroupsFit(q, gs) && Ends(s, i + |l| + |tail|, q);
    MatchRender(s, i + |l|, q, gs);
    MatchLitOk(s, i, l, q, gs);
  }

  /** A literal that occurs at `i`, followed by a match of the rest. */
  lemma MatchLitOk(s: string, i: nat, l: string, q: Pattern, gs: seq<string>)
    requires LitAt(s, i, l) && Match(s, i + |l|, q) == Some(gs)
    ensures Match(s, i, Lit(l, q)) == Some(gs)
  {
  }

  /** The step of `MatchRender` for a pattern that starts with a group. */
  lemma {:induction false} MatchRenderPlus(s: string, i: nat, p: Pattern, gs: seq<string>)
    requires p.Plus? && Separated(p) && GroupsFit(p, gs)
    requires LitAt(s, i, Render(p, gs)) && Ends(s, i + |Render(p, gs)|, p)
    ensures Match(s, i, p) == Some(gs)
    decreases p, 1
  {
    RenderGroupParts(s, i, p.digits, p.next, gs);
    MatchRenderGroup(s, i, p.digits, p.next, gs[0], gs[1..]);
  }

  /** What the rendering of a group and the rest of the pattern puts in
      `s`: the group's text, then the rest's. */
  lemma RenderGroupParts(s: string, i: nat, d: bool, q: Pattern, gs: seq<string>)
    requires Separated(Plus(d, q)) && GroupsFit(Plus(d, q), gs)
    requires LitAt(s, i, Render(Plus(d, q), gs)) && Ends(s, i + |Render(Plus(d, q), gs)|, Plus(d, q))
    ensures gs != [] && [gs[0]] + gs[1..] == gs
    ensures (q == Done || StopsGroups(q)) && Separated(q) && GroupsFit(q, gs[1..])
    ensures gs[0] != [] && AllInClass(gs[0], d) && LitAt(s, i, gs[0])
    ensures LitAt(s, i + |gs[0]|, Render(q, gs[1..]))
    ensures Ends(s, i + |gs[0]| + |Render(q, gs[1..])|, q)
    ensures q == Done ==> RunLen(s, i + |gs[0]|, d) == 0
  {
    var g, tail := gs[0], Render(q, gs[1..]);
    assert Render(Plus(d, q), gs) == g + tail;
    LitSplit(s, i, g, tail);
  }

  /** The step of `MatchRender` for a pattern that starts with a group. */
  lemma {:induction false} MatchRenderGroup(s: string, i: nat, d: bool, q: Pattern, g: string, rest: seq<string>)
    requires (q == Done || StopsGroups(q)) && Separated(q) && GroupsFit(q, rest)
    requires g != [] && AllInClass(g, d) && LitAt(s, i, g)
    requires LitAt(s, i + |g|, Render(q, rest)) && Ends(s, i + |g| + |Render(q, rest)|, q)
    requires q == Done ==> RunLen(s, i + |g|, d) == 0
    ensures Match(s, i, Plus(d, q)) == Some([g] + rest)
    decreases q, 3
  {
    GroupRunLen(s, i, g, d, q, rest);
    MatchRender(s, i + |g|, q, rest);
    MatchGroupOk(s, i, d, q, |g|, rest);
    assert s[i..i + |g|] == g;
  }

  /** A group that takes a non-empty run, followed by a match of the rest. */
  lemma MatchGroupOk(s: string, i: nat, d: bool, q: Pattern, n: nat, rest: seq<string>)
    requires i + n <= |s| && RunLen(s, i, d) == n > 0
    requires Match(s, i + n, q) == Some(rest)
    ensures Match(s, i, Plus(d, q)) == Some([s[i..i + n]] + rest)
  {
    assert Match(s, i, Plus(d, q)) == Cons(s[i..i + n], Match(s, i + n, q));
  }

  /** A group written before the rest of a separated pattern is read whole. */
  lemma GroupRunLen(s: string, i: nat, g: string, d: bool, q: Pattern, rest: seq<string>)
    requires AllInClass(g, d) && LitAt(s, i, g) && (q == Done || StopsGroups(q))
    requires LitAt(s, i + |g|, Render(q, rest))
    requires q == Done ==> RunLen(s, i + |g|, d) == 0
    ensures RunLen(s, i, d) == |g|
  {
    RunLenOver(s, i, g, d);
    if q != Done {
      LitSplit(s, i + |g|, q.text, Render(q.next, rest));
      LitHead(s, i + |g|, q.text);
      RunLenStops(s, i + |g|, d);
    }
  }

  /** A group followed by a literal it cannot run into matches nowhere
      short of its whole run: every shorter try fails. */
  lemma {:induction false} ShorterFails(s: string, i: nat, p: Pattern, m: nat)
    requires p.Plus? && StopsGroups(p.next)
    requires i <= |s| && m < RunLen(s, i, p.digits)
    ensures TryRun(s, i, p, m) == None
    decreases m
  {
    if m > 0 {
      RunLenInside(s, i, p.digits, m);
      assert !LitAt(s, i + m, p.next.text);
      ShorterFails(s, i, p, m - 1);
    }
  }

  /** With separated literals the greedy matcher agrees with the
      backtracking one: the first run the backtracker tries is the only
      one that can succeed. */
  lemma {:induction false} GreedyIsBacktracking(s: string, i: nat, p: Pattern)
    requires i <= |s| && Separated(p)
    ensures Match(s, i, p) == MatchBack(s, i, p)
    decreases p, 1
  {
    match p
    case Done =>
    case Lit(l, q) =>
      if LitAt(s, i, l) {
        GreedyIsBacktracking(s, i + |l|, q);
      }
    case Plus(d, q) =>
      GreedyGroup(s, i, p);
  }

  /** The step of `GreedyIsBacktracking` for a pattern that starts with a
      group. */
  lemma {:induction false} GreedyGroup(s: string, i: nat, p: Pattern)
    requires i <= |s| && p.Plus? && Separated(p)
    ensures Match(s, i, p) == MatchBack(s, i, p)
    decreases p, 0
  {
    var d, q := p.digits, p.next;
    var n := RunLen(s, i, d);
    assert MatchBack(s, i, p) == TryRun(s, i, p, n);
    if n > 0 {
      GreedyIsBacktracking(s, i + n, q);
      if q != Done {
        ShorterFails(s, i, p, n - 1);
      }
      TryRunTop(s, i, p, n);
    }
  }

  /** The longest try of a group: it succeeds when the rest matches after
      it, and otherwise falls back to the shorter tries. */
  lemma TryRunTop(s: string, i: nat, p: Pattern, n: nat)
    requires p.Plus? && i <= |s| && 0 < n == RunLen(s, i, p.digits)
    requires MatchBack(s, i + n, p.next) == Match(s, i + n, p.next)
    requires Match(s, i + n, p.next).Some? || TryRun(s, i, p, n - 1) == None
    ensures Match(s, i, p) == TryRun(s, i, p, n)
  {
    var g, rest := s[i..i + n], Match(s, i + n, p.next);
    assert Match(s, i, p) == Cons(g, rest);
    if rest.None? {
      assert TryRun(s, i, p, n) == TryRun(s, i, p, n - 1);
    }
  }
  /** The first position from `i` on where the pattern matches, or `|s| + 1`
      when there is none. */
  function FirstMatch(s: string, i: nat, p: Pattern): (j: nat)
    requires i <= |s|
    ensures i <= j <= |s| + 1
    ensures j <= |s| ==> Match(s, j, p).Some?
    ensures forall k :: i <= k < j && k <= |s| ==> Match(s, k, p) == None
    decreases |s| - i
  {
    if Match(s, i, p).Some? then i
    else if i == |s| then |s| + 1
    else FirstMatch(s, i + 1, p)
  }

  /** `re.search`: the match at the leftmost position where one exists. */
  function Search(s: string, p: Pattern): Option<seq<string>> {
    var j := FirstMatch(s, 0, p);
    if j <= |s| then Match(s, j, p) else None
  }

  /** The search finds nothing exactly when the pattern matches nowhere. */
  lemma SearchNone(s: string, p: Pattern)
    ensures Search(s, p) == None <==> forall j :: 0 <= j <= |s| ==> Match(s, j, p) == None
  {
    var f := FirstMatch(s, 0, p);
    if f > |s| {
      assert forall j :: 0 <= j <= |s| ==> Match(s, j, p) == None by {
        forall j | 0 <= j <= |s| ensures Match(s, j, p) == None {
          assert 0 <= j < f && j <= |s|;
        }
      }
      assert Search(s, p) == None;
    } else {
      assert Match(s, f, p).Some?;
    }
  }

  /** The search returns the match at the first matching position. */
  lemma SearchFirst(s: string, j: nat, p: Pattern)
    requires j <= |s| && Match(s, j, p).Some?
    requires forall k :: 0 <= k < j ==> Match(s, k, p) == None
    ensures Search(s, p) == Match(s, j, p)
  {
    var f := FirstMatch(s, 0, p);
  }

  /** The groups a match yields, as the script reads them: the validation
      fold only when there are more than two. */
  function ToGroups(gs: seq<string>): (g: Groups)
    requires |gs| >= 2
    ensures g.test == gs[0] && g.hp == gs[1]
    ensures g.val.Some? <==> |gs| > 2
  {
    Groups(gs[0], gs[1], if |gs| > 2 then Some(gs[2]) else None)
  }

  /** The pattern the script picks. */
  function PatternFor(isCv: bool): Pattern {
    if isCv then CvPattern else CtPattern
  }

  lemma PatternsSeparated(isCv: bool)
    ensures Separated(PatternFor(isCv))
  {
    var valOn := Lit("_val_", Plus(false, Done));
    assert Separated(Plus(true, Done));
    assert Separated(Lit("_hpconfig_", Plus(true, Done)));
    assert Separated(Plus(false, Lit("_hpconfig_", Plus(true, Done))));
    assert Separated(valOn);
    assert Separated(Plus(true, valOn));
    assert Separated(Lit("_hpconfig_", Plus(true, valOn)));
    assert Separated(Plus(false, Lit("_hpconfig_", Plus(true, valOn))));
  }

  /** The number of groups in a pattern. */
  function Holes(p: Pattern): nat {
    match p
    case Done => 0
    case Lit(_, q) => Holes(q)
    case Plus(_, q) => 1 + Holes(q)
  }

  /** Groups that fit a pattern are as many as its groups. */
  lemma {:induction false} FitsCount(p: Pattern, gs: seq<string>)
    requires GroupsFit(p, gs)
    ensures |gs| == Holes(p)
  {
    match p
    case Done =>
    case Lit(_, q) => FitsCount(q, gs);
    case Plus(_, q) => FitsCount(q, gs[1..]);
  }

  /** Every match of a script pattern has two groups, or three for
      cross-validation. */
  lemma MatchCount(s: string, i: nat, isCv: bool)
    requires i <= |s| && Match(s, i, PatternFor(isCv)).Some?
    ensures |Match(s, i, PatternFor(isCv)).value| == if isCv then 3 else 2
  {
    MatchFits(s, i, PatternFor(isCv));
    FitsCount(PatternFor(isCv), Match(s, i, PatternFor(isCv)).value);
    assert Holes(Plus(false, Done)) == 1;
  }

  /** The parse of a file name: the groups of the leftmost match, if any. */
  function ParseName(name: string, isCv: bool): (r: Option<Groups>)
    ensures r.Some? ==> (r.value.val.Some? <==> isCv)
  {
    var p := PatternFor(isCv);
    var j := FirstMatch(name, 0, p);
    if j <= |name| then
      MatchCount(name, j, isCv);
      Some(ToGroups(Match(name, j, p).value))
    else None
  }

  /** The text the cross-validation pattern matches for given groups. */
  function CvText(t: string, h: string, v: string): string {
    "test_" + t + "_hpconfig_" + h + "_val_" + v
  }

  /** The text the cross-testing pattern matches for given groups. */
  function CtText(t: string, h: string): string {
    "test_" + t + "_hpconfig_" + h
  }

  /** A group pattern takes the first group and leaves the rest to what
      follows it. */
  lemma RenderPlus(d: bool, q: Pattern, g: string, gs: seq<string>)
    ensures Render(Plus(d, q), [g] + gs) == g + Render(q, gs)
    ensures GroupsFit(Plus(d, q), [g] + gs) <==> g != [] && AllInClass(g, d) && GroupsFit(q, gs)
  {
    assert ([g] + gs)[1..] == gs;
  }

  /** The groups of a cross-validation match fit the pattern and spell
      its text. */
  lemma CvRender(t: string, h: string, v: string)
    requires t != [] && AllInClass(t, false) && h != [] && AllInClass(h, true)
    requires v != [] && AllInClass(v, false)
    ensures GroupsFit(CvPattern, [t, h, v]) && Render(CvPattern, [t, h, v]) == CvText(t, h, v)
  {
    var p5 := Plus(false, Done);
    var p4 := Lit("_val_", p5);
    var p3 := Plus(true, p4);
    var p2 := Lit("_hpconfig_", p3);
    var p1 := Plus(false, p2);
    RenderPlus(false, Done, v, []);
    assert [v] + [] == [v] && v + "" == v;
    RenderPlus(true, p4, h, [v]);
    assert [h] + [v] == [h, v];
    RenderPlus(false, p2, t, [h, v]);
    assert [t] + [h, v] == [t, h, v];
    var r1 := Render(p1, [t, h, v]);
    assert r1 == t + ("_hpconfig_" + (h + ("_val_" + v)));
    assert "test_" + r1 == CvText(t, h, v);
  }

  /** The cross-testing counterpart of `CvRender`. */
  lemma CtRender(t: string, h: string)
    requires t != [] && AllInClass(t, false) && h != [] && AllInClass(h, true)
    ensures GroupsFit(CtPattern, [t, h]) && Render(CtPattern, [t, h]) == CtText(t, h)
  {
    var p3 := Plus(true, Done);
    var p2 := Lit("_hpconfig_", p3);
    RenderPlus(true, Done, h, []);
    assert [h] + [] == [h] && h + "" == h;
    RenderPlus(false, p2, t, [h]);
    assert [t] + [h] == [t, h];
    var r1 := Render(Plus(false, p2), [t, h]);
    assert r1 == t + ("_hpconfig_" + h);
    assert "test_" + r1 == CtText(t, h);
  }

  /** A name whose first match is at `i` parses to that match's groups. */
  lemma ParseAt(s: string, i: nat, isCv: bool, p: Pattern, gs: seq<string>)
    requires p == PatternFor(isCv)
    requires i <= |s| && Match(s, i, p) == Some(gs)
    requires forall j :: 0 <= j < i ==> Match(s, j, p) == None
    ensures |gs| >= 2 && ParseName(s, isCv) == Some(ToGroups(gs))
  {
    MatchCount(s, i, isCv);
    FirstMatchAt(s, 0, i, p);
  }

  /** The first match from `k` on is at `i` when the pattern matches at `i`
      and nowhere between `k` and `i`. */
  lemma {:induction false} FirstMatchAt(s: string, k: nat, i: nat, p: Pattern)
    requires k <= i <= |s| && Match(s, i, p).Some?
    requires forall j :: k <= j < i ==> Match(s, j, p) == None
    ensures FirstMatch(s, k, p) == i
    decreases i - k
  {
    if k < i {
      FirstMatchAt(s, k + 1, i, p);
    }
  }

  /** Groups written into a name at `i`, the last group ending its run,
      with no match of the pattern before `i`, are what the name parses to. */
  lemma WrittenParses(s: string, i: nat, e: nat, w: string, isCv: bool, p: Pattern, gs: seq<string>)
    requires p == PatternFor(isCv) && Separated(p) && GroupsFit(p, gs) && Render(p, gs) == w
    requires LitAt(s, i, w) && e == i + |w| && Ends(s, e, p)
    requires forall j :: 0 <= j < i ==> Match(s, j, p) == None
    ensures |gs| >= 2 && ParseName(s, isCv) == Some(ToGroups(gs))
  {
    assert i + |Render(p, gs)| == e;
    MatchRender(s, i, p, gs);
    ParseAt(s, i, isCv, p, gs);
  }

  /** A text written between `pre` and `post` sits after `pre`, and a run
      of a class that `post` does not start cannot go on past it. */
  lemma Written(pre: string, w: string, post: string, d: bool)
    requires post == [] || !InClass(post[0], d)
    ensures LitAt(pre + w + post, |pre|, w)
    ensures RunLen(pre + w + post, |pre| + |w|, d) == 0
  {
    var s := pre + w + post;
    assert s[|pre|..|pre| + |w|] == w;
    if post != [] {
      assert s[|pre| + |w|] == post[0];
    }
  }

  lemma CvEnds(s: string, e: nat)
    requires e <= |s| && RunLen(s, e, false) == 0
    ensures Ends(s, e, CvPattern)
  {
    assert Ends(s, e, Plus(false, Done));
    assert Ends(s, e, Plus(true, Lit("_val_", Plus(false, Done))));
  }

  lemma CtEnds(s: string, e: nat)
    requires e <= |s| && RunLen(s, e, true) == 0
    ensures Ends(s, e, CtPattern)
  {
    assert Ends(s, e, Plus(true, Done));
  }

  /** Round trip for cross-validation names: groups written into a name
      with no earlier match, the validation fold ending the alphanumeric
      run, are read back unchanged. */
  lemma CvRoundTrip(pre: string, t: string, h: string, v: string, post: string)
    requires t != [] && AllInClass(t, false) && h != [] && AllInClass(h, true)
    requires v != [] && AllInClass(v, false)
    requires post == [] || !IsAlnum(post[0])
    requires forall j :: 0 <= j < |pre| ==> Match(pre + CvText(t, h, v) + post, j, CvPattern) == None
    ensures ParseName(pre + CvText(t, h, v) + post, true) == Some(Groups(t, h, Some(v)))
  {
    var w := CvText(t, h, v);
    var s, e := pre + w + post, |pre| + |w|;
    Written(pre, w, post, false);
    CvEnds(s, e);
    CvRender(t, h, v);
    PatternsSeparated(true);
    WrittenParses(s, |pre|, e, w, true, CvPattern, [t, h, v]);
  }

  /** Round trip for cross-testing names: the configuration index must end
      the run of digits. */
  lemma CtRoundTrip(pre: string, t: string, h: string, post: string)
    requires t != [] && AllInClass(t, false) && h != [] && AllInClass(h, true)
    requires post == [] || !IsDigit(post[0])
    requires forall j :: 0 <= j < |pre| ==> Match(pre + CtText(t, h) + post, j, CtPattern) == None
    ensures ParseName(pre + CtText(t, h) + post, false) == Some(Groups(t, h, None))
  {
    var w := CtText(t, h);
    var s, e := pre + w + post, |pre| + |w|;
    Written(pre, w, post, true);
    CtEnds(s, e);
    CtRender(t, h);
    PatternsSeparated(false);
    WrittenParses(s, |pre|, e, w, false, CtPattern, [t, h]);
  }

  /** What the loop does with one predictions file: the groups it prints
      (if the name matches) and the path it writes the matrix to. */
  datatype CfFile = CfFile(predictions: string, parsed: Option<Groups>, written: string)

  /** The `IndexError` of taking the first file of an empty list. */
  datatype CfError = NoPredictionFiles

  /** `get_newfilepath_from_predictions(path, "confusion_matrix", output_path)`. */
  type NewPath = string -> string

  /** `Path.name`, as the text after the last `/`. The two differ only for
      a path ending in `/` (`Path("a/b/").name` is `b`); the file paths the
      path getter lists never end in `/`. */
  function FileName(path: string): string {
    LastSegment(path, '/')
  }

  /** The reports of the loop for a fixed pattern choice. */
  function CfFiles(files: seq<string>, isCv: bool, newPath: NewPath): (r: seq<CfFile>)
    ensures |r| == |files|
    ensures forall k :: 0 <= k < |r| ==>
      r[k] == CfFile(files[k], ParseName(FileName(files[k]), isCv), newPath(files[k]))
  {
    seq(|files|, k requires 0 <= k < |files| =>
      CfFile(files[k], ParseName(FileName(files[k]), isCv), newPath(files[k])))
  }

  /** The pattern choice: the given flag, or else the first file decides. */
  function CvChoice(files: seq<string>, isCvLoop: Option<bool>, determine: string -> bool): (r: Result<bool, CfError>)
    ensures r.Err? <==> isCvLoop == None && files == []
    ensures isCvLoop.Some? ==> r == Ok(isCvLoop.value)
    ensures isCvLoop == None && files != [] ==> r == Ok(determine(files[0]))
  {
    match isCvLoop
    case Some(b) => Ok(b)
    case None => if files == [] then Err(NoPredictionFiles) else Ok(determine(files[0]))
  }

  /** `generate_cf`: every file has its matrix written, whether or not its
      name matches the pattern; the match only decides what is printed. */
  method GenerateCf(files: seq<string>, isCvLoop: Option<bool>, determine: string -> bool, newPath: NewPath)
    returns (r: Result<seq<CfFile>, CfError>)
    ensures r.Err? <==> CvChoice(files, isCvLoop, determine).Err?
    ensures r.Ok? ==> r.value == CfFiles(files, CvChoice(files, isCvLoop, determine).value, newPath)
  {
    var isCv: bool;
    if isCvLoop == None {
      if files == [] {
        return Err(NoPredictionFiles);
      }
      isCv := determine(files[0]);
    } else {
      isCv := isCvLoop.value;
    }
    var written: seq<CfFile> := [];
    for k := 0 to |files|
      invariant |written| == k
      invariant forall j :: 0 <= j < k ==> written[j] == CfFile(files[j], ParseName(FileName(files[j]), isCv), newPath(files[j]))
    {
      var path := files[k];
      var name := FileName(path);
      var groups := ParseName(name, isCv);
      written := written + [CfFile(path, groups, newPath(path))];
    }
    assert written == CfFiles(files, isCv, newPath);
    r := Ok(written);
  }
}
