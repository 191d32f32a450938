/** Regular expressions are determined by their text: expressions that print alike match the same strings. */
module RegexText {
  import opened Strings
  import opened Seb
  import opened UrlRule

  // ----- the shape of a text ---------------------------------------------------------------

  type PlainClass = cls: CharClass | ClassReadsBack(cls) witness AnyButNewline

  datatype Mark = Once | Maybe | Many | AtLeastOnce

  datatype Atom = Letter(c: char) | Class(cls: PlainClass) | Sub(alts: Alts)

  datatype Item = Item(atom: Atom, mark: Mark)

  datatype Branch = Empty | Cons(item: Item, rest: Branch)

  datatype Alts = Last(branch: Branch) | More(branch: Branch, others: Alts)

  function ShowMark(m: Mark): string {
    match m
    case Once => ""
    case Maybe => "?"
    case Many => "*"
    case AtLeastOnce => "+"
  }

  function ShowAtom(a: Atom): string {
    match a
    case Letter(c) => Escape([c])
    case Class(cls) => ShowClass(cls)
    case Sub(alts) => "(" + ShowAlts(alts) + ")"
  }

  function ShowBranch(b: Branch): string {
    match b
    case Empty => ""
    case Cons(item, rest) => ShowAtom(item.atom) + ShowMark(item.mark) + ShowBranch(rest)
  }

  function ShowAlts(x: Alts): string {
    match x
    case Last(branch) => ShowBranch(branch)
    case More(branch, others) => ShowBranch(branch) + "|" + ShowAlts(others)
  }

  // ----- the shape of an expression -----------------------------------------------------------

  function Append(x: Branch, y: Branch): Branch {
    match x
    case Empty => y
    case Cons(item, rest) => Cons(item, Append(rest, y))
  }

  function Join(x: Alts, y: Alts): Alts {
    match x
    case Last(branch) => More(branch, y)
    case More(branch, others) => More(branch, Join(others, y))
  }

  function Letters(text: string): Branch {
    if text == "" then Empty else Cons(Item(Letter(text[0]), Once), Letters(text[1..]))
  }

  function Single(a: Atom, m: Mark): Branch {
    Cons(Item(a, m), Empty)
  }

  function AtomOf(re: Regex): Atom
    requires ReadsBack(re) && IsUnit(re)
    decreases re, 0
  {
    match re
    case Text(text) => Letter(text[0])
    case In(cls) => Class(cls)
    case Group(a) => Sub(AltsOf(a))
  }

  function BranchOf(re: Regex): Branch
    requires ReadsBack(re) && !re.Either?
    decreases re, 1
  {
    match re
    case Text(text) => Letters(text)
    case In(cls) => Single(Class(cls), Once)
    case Then(a, b) => Append(BranchOf(a), BranchOf(b))
    case Group(a) => Single(Sub(AltsOf(a)), Once)
    case Optional(a) => Single(AtomOf(a), Maybe)
    case Repeat(a) => Single(AtomOf(a), Many)
    case RepeatOnce(a) => Single(AtomOf(a), AtLeastOnce)
  }

  function AltsOf(re: Regex): Alts
    requires ReadsBack(re)
    decreases re, 2
  {
    if re.Either? then Join(AltsOf(re.left), AltsOf(re.right)) else Last(BranchOf(re))
  }

  // ----- an expression prints as its shape ------------------------------------------------------

  lemma {:induction false} ShowAppend(x: Branch, y: Branch)
    ensures ShowBranch(Append(x, y)) == ShowBranch(x) + ShowBranch(y)
  {
    match x
    case Empty =>
      assert "" + ShowBranch(y) == ShowBranch(y);
    case Cons(item, rest) =>
      ShowAppend(rest, y);
      ConcatThree(ShowAtom(item.atom) + ShowMark(item.mark), ShowBranch(rest), ShowBranch(y));
  }

  lemma {:induction false} ShowJoin(x: Alts, y: Alts)
    ensures ShowAlts(Join(x, y)) == ShowAlts(x) + "|" + ShowAlts(y)
  {
    match x
    case Last(branch) =>
    case More(branch, others) =>
      ShowJoin(others, y);
      ConcatThree(ShowBranch(branch) + "|", ShowAlts(others) + "|", ShowAlts(y));
      ConcatThree(ShowBranch(branch) + "|", ShowAlts(others), "|");
  }

  lemma {:induction false} ShowLetters(text: string)
    ensures ShowBranch(Letters(text)) == Escape(text)
  {
    if text == "" {
    } else {
      ShowLetters(text[1..]);
      EscapeFirst(text);
      ShowFirst(text[0], Letters(text[1..]));
    }
  }

  lemma EscapeFirst(text: string)
    requires text != ""
    ensures Escape(text) == Escape([text[0]]) + Escape(text[1..])
  {
    assert [text[0]][1..] == "";
    assert Escape([text[0]]) == (if IsMeta(text[0]) then ['\\', text[0]] else [text[0]]);
  }

  lemma ShowFirst(c: char, rest: Branch)
    ensures ShowBranch(Cons(Item(Letter(c), Once), rest)) == Escape([c]) + ShowBranch(rest)
  {
    assert Escape([c]) + "" == Escape([c]);
  }

  lemma ShowSingle(a: Atom, m: Mark)
    ensures ShowBranch(Single(a, m)) == ShowAtom(a) + ShowMark(m)
  {
  }

  lemma {:induction false} ShowShape(re: Regex)
    requires ReadsBack(re)
    ensures Show(re) == ShowAlts(AltsOf(re))
    decreases re
  {
    match re
    case Text(text) => ShowLetters(text);
    case In(cls) => ShowSingle(Class(cls), Once);
    case Then(a, b) =>
      ShowShape(a);
      ShowShape(b);
      ShowAppend(BranchOf(a), BranchOf(b));
    case Either(a, b) =>
      ShowShape(a);
      ShowShape(b);
      ShowJoin(AltsOf(a), AltsOf(b));
    case Group(a) =>
      ShowShape(a);
      ShowSingle(Sub(AltsOf(a)), Once);
    case Optional(a) =>
      ShowUnit(a);
      ShowSingle(AtomOf(a), Maybe);
    case Repeat(a) =>
      ShowUnit(a);
      ShowSingle(AtomOf(a), Many);
    case RepeatOnce(a) =>
      ShowUnit(a);
      ShowSingle(AtomOf(a), AtLeastOnce);
  }

  lemma {:induction false} ShowUnit(re: Regex)
    requires ReadsBack(re) && IsUnit(re)
    ensures Show(re) == ShowAtom(AtomOf(re))
    decreases re
  {
    match re
    case Text(text) => assert text == [text[0]];
    case In(cls) =>
    case Group(a) => ShowShape(a);
  }

  // ----- a text has one shape -------------------------------------------------------------------------

  /** Where a branch may end. */
  predicate EndsBranch(rest: string) {
    rest == "" || rest[0] == ')' || rest[0] == '|'
  }

  predicate EndsAlts(rest: string) {
    rest == "" || rest[0] == ')'
  }

  predicate IsMark(c: char) {
    c == '?' || c == '*' || c == '+'
  }

  predicate Unmarked(rest: string) {
    rest == "" || !IsMark(rest[0])
  }

  lemma AtomStart(a: Atom)
    ensures ShowAtom(a) != "" && !IsMark(ShowAtom(a)[0]) && ShowAtom(a)[0] != ')' && ShowAtom(a)[0] != '|'
    ensures a.Letter? && !IsMeta(a.c) ==> ShowAtom(a) == [a.c]
    ensures a.Letter? && IsMeta(a.c) ==> ShowAtom(a) == ['\\', a.c]
    ensures a.Class? ==> ShowAtom(a)[0] == if a.cls.AnyButNewline? then '.' else '['
    ensures a.Sub? ==> ShowAtom(a)[0] == '('
  {
    if a.Letter? {
      assert [a.c][1..] == "";
      assert Escape("") == "";
    }
  }

  lemma BranchStart(b: Branch, rest: string)
    requires EndsBranch(rest)
    ensures Unmarked(ShowBranch(b) + rest)
    ensures b.Cons? ==> !EndsBranch(ShowBranch(b) + rest)
  {
    if b.Cons? {
      AtomStart(b.item.atom);
      assert (ShowBranch(b) + rest)[0] == ShowAtom(b.item.atom)[0];
    } else {
      assert "" + rest == rest;
    }
  }

  lemma UniqueMark(m: Mark, n: Mark, r: string, s: string)
    requires Unmarked(r) && Unmarked(s) && ShowMark(m) + r == ShowMark(n) + s
    ensures m == n && r == s
  {
    CutConcat(ShowMark(m), r);
    CutConcat(ShowMark(n), s);
    assert m.Once? ==> ShowMark(m) + r == r;
    assert n.Once? ==> ShowMark(n) + s == s;
  }

  lemma UniqueSet(x: string, y: string, r: string, s: string)
    requires PlainSet(x) && PlainSet(y) && x + ("]" + r) == y + ("]" + s)
    ensures x == y && r == s
  {
    UntilUnique(x + ("]" + r), {']'}, |x|);
    UntilUnique(y + ("]" + s), {']'}, |y|);
    CutConcat(x, "]" + r);
    CutConcat(y, "]" + s);
    CutConcat("]", r);
    CutConcat("]", s);
  }

  /** What stands between the brackets, up to the end of the text. */
  function ClassBody(cls: CharClass): string {
    match cls
    case OneOf(chars) => chars
    case NoneOf(chars) => "^" + chars
    case Range(lo, hi) => [lo] + "-" + [hi]
    case AnyButNewline => ""
  }

  lemma ClassText(cls: CharClass, r: string)
    requires !cls.AnyButNewline?
    ensures ShowClass(cls) + r == "[" + (ClassBody(cls) + ("]" + r))
  {
    ConcatThree("[", ClassBody(cls), "]");
    ConcatThree("[", ClassBody(cls) + "]", r);
    ConcatThree(ClassBody(cls), "]", r);
    if cls.NoneOf? {
      assert "[^" + cls.chars + "]" == "[" + ("^" + cls.chars) + "]";
    } else if cls.Range? {
      assert "[" + [cls.lo] + "-" + [cls.hi] + "]" == "[" + ([cls.lo] + "-" + [cls.hi]) + "]";
    }
  }

  lemma UniqueClass(c: PlainClass, d: PlainClass, r: string, s: string)
    requires ShowClass(c) + r == ShowClass(d) + s
    ensures c == d && r == s
  {
    if c.AnyButNewline? || d.AnyButNewline? {
      assert (ShowClass(c) + r)[0] == ShowClass(c)[0] && (ShowClass(d) + s)[0] == ShowClass(d)[0];
      CutConcat(ShowClass(c), r);
      CutConcat(ShowClass(d), s);
    } else {
      ClassText(c, r);
      ClassText(d, s);
      CutConcat("[", ClassBody(c) + ("]" + r));
      CutConcat("[", ClassBody(d) + ("]" + s));
      UniqueBody(c, d, r, s);
    }
  }

  lemma BodyStart(c: PlainClass, r: string)
    requires !c.AnyButNewline?
    ensures
      var text := ClassBody(c) + ("]" + r);
      && |text| >= 2
      && (text[0] == '^' <==> c.NoneOf?)
      && (c.Range? ==> |text| >= 4 && text[..3] == [c.lo, '-', c.hi] && text[4..] == r)
      && (c.OneOf? ==> text[1] != '-')
  {
    CutConcat(ClassBody(c), "]" + r);
    CutConcat("]", r);
    if c.OneOf? {
      assert PlainInClass(c.chars[0]);
      assert |c.chars| > 1 ==> PlainInClass(c.chars[1]);
    }
  }

  lemma UniqueBody(c: PlainClass, d: PlainClass, r: string, s: string)
    requires !c.AnyButNewline? && !d.AnyButNewline? && ClassBody(c) + ("]" + r) == ClassBody(d) + ("]" + s)
    ensures c == d && r == s
  {
    BodyStart(c, r);
    BodyStart(d, s);
    if c.NoneOf? {
      ConcatThree("^", c.chars, "]" + r);
      ConcatThree("^", d.chars, "]" + s);
      CutConcat("^", c.chars + ("]" + r));
      CutConcat("^", d.chars + ("]" + s));
      UniqueSet(c.chars, d.chars, r, s);
    } else if c.OneOf? {
      UniqueSet(c.chars, d.chars, r, s);
    } else {
      assert [c.lo, '-', c.hi][0] == [d.lo, '-', d.hi][0] && [c.lo, '-', c.hi][2] == [d.lo, '-', d.hi][2];
    }
  }

  lemma {:induction false} UniqueAtom(a: Atom, b: Atom, r: string, s: string)
    requires ShowAtom(a) + r == ShowAtom(b) + s
    ensures a == b && r == s
    decreases a
  {
    AtomStart(a);
    AtomStart(b);
    var text := ShowAtom(a) + r;
    assert text[0] == ShowAtom(a)[0] == ShowAtom(b)[0];
    CutConcat(ShowAtom(a), r);
    CutConcat(ShowAtom(b), s);
    match a
    case Letter(c) => SameLetter(a, b, r, s);
    case Class(cls) => UniqueClass(cls, b.cls, r, s);
    case Sub(alts) =>
      SubText(alts, r);
      SubText(b.alts, s);
      CutConcat("(", ShowAlts(alts) + (")" + r));
      CutConcat("(", ShowAlts(b.alts) + (")" + s));
      UniqueAlts(alts, b.alts, ")" + r, ")" + s);
      CutConcat(")", r);
      CutConcat(")", s);
  }

  lemma SubText(alts: Alts, r: string)
    ensures ShowAtom(Sub(alts)) + r == "(" + (ShowAlts(alts) + (")" + r))
  {
    ConcatThree("(", ShowAlts(alts), ")");
    ConcatThree("(", ShowAlts(alts) + ")", r);
    ConcatThree(ShowAlts(alts), ")", r);
  }

  lemma SameLetter(a: Atom, b: Atom, r: string, s: string)
    requires a.Letter? && ShowAtom(a) + r == ShowAtom(b) + s
    ensures a == b && r == s
  {
    AtomStart(a);
    AtomStart(b);
    var text := ShowAtom(a) + r;
    assert text[0] == ShowAtom(a)[0] == ShowAtom(b)[0];
    assert b.Letter?;
    CutConcat(ShowAtom(a), r);
    CutConcat(ShowAtom(b), s);
    if IsMeta(a.c) {
      assert text[1] == ShowAtom(a)[1] == ShowAtom(b)[1];
    }
  }

  lemma {:induction false} UniqueBranch(x: Branch, y: Branch, r: string, s: string)
    requires EndsBranch(r) && EndsBranch(s) && ShowBranch(x) + r == ShowBranch(y) + s
    ensures x == y && r == s
    decreases x
  {
    BranchStart(x, r);
    BranchStart(y, s);
    match x
    case Empty =>
      assert "" + r == r && "" + s == s;
    case Cons(item, rest) =>
      assert y.Cons? by {
        assert "" + s == s;
      }
      BranchText(item, rest, r);
      BranchText(y.item, y.rest, s);
      UniqueAtom(item.atom, y.item.atom, ShowMark(item.mark) + (ShowBranch(rest) + r),
                 ShowMark(y.item.mark) + (ShowBranch(y.rest) + s));
      BranchStart(rest, r);
      BranchStart(y.rest, s);
      UniqueMark(item.mark, y.item.mark, ShowBranch(rest) + r, ShowBranch(y.rest) + s);
      UniqueBranch(rest, y.rest, r, s);
  }

  lemma BranchText(item: Item, rest: Branch, r: string)
    ensures ShowBranch(Cons(item, rest)) + r == ShowAtom(item.atom) + (ShowMark(item.mark) + (ShowBranch(rest) + r))
  {
    ConcatThree(ShowAtom(item.atom) + ShowMark(item.mark), ShowBranch(rest), r);
    ConcatThree(ShowAtom(item.atom), ShowMark(item.mark), ShowBranch(rest) + r);
  }

  /** What follows the first branch. */
  function AfterBranch(x: Alts, r: string): string {
    match x
    case Last(_) => r
    case More(_, others) => "|" + (ShowAlts(others) + r)
  }

  lemma AltsText(x: Alts, r: string)
    ensures ShowAlts(x) + r == ShowBranch(x.branch) + AfterBranch(x, r)
  {
    if x.More? {
      ConcatThree(ShowBranch(x.branch) + "|", ShowAlts(x.others), r);
      ConcatThree(ShowBranch(x.branch), "|", ShowAlts(x.others) + r);
    }
  }

  lemma {:induction false} UniqueAlts(x: Alts, y: Alts, r: string, s: string)
    requires EndsAlts(r) && EndsAlts(s) && ShowAlts(x) + r == ShowAlts(y) + s
    ensures x == y && r == s
    decreases x
  {
    AltsText(x, r);
    AltsText(y, s);
    UniqueBranch(x.branch, y.branch, AfterBranch(x, r), AfterBranch(y, s));
    if x.Last? {
    } else {
      assert AfterBranch(x, r)[0] == '|';
      CutConcat("|", ShowAlts(x.others) + r);
      CutConcat("|", ShowAlts(y.others) + s);
      UniqueAlts(x.others, y.others, r, s);
    }
  }

  // ----- the language of a shape ----------------------------------------------------------------------

  function AtomRegex(a: Atom): Regex {
    match a
    case Letter(c) => Text([c])
    case Class(cls) => In(cls)
    case Sub(alts) => Group(AltsRegex(alts))
  }

  function MarkRegex(re: Regex, m: Mark): Regex {
    match m
    case Once => re
    case Maybe => Optional(re)
    case Many => Repeat(re)
    case AtLeastOnce => RepeatOnce(re)
  }

  function BranchRegex(b: Branch): Regex {
    match b
    case Empty => Text("")
    case Cons(item, rest) => Then(MarkRegex(AtomRegex(item.atom), item.mark), BranchRegex(rest))
  }

  function AltsRegex(x: Alts): Regex {
    match x
    case Last(branch) => BranchRegex(branch)
    case More(branch, others) => Either(BranchRegex(branch), AltsRegex(others))
  }

  ghost predicate Alike(a: Regex, b: Regex) {
    forall s :: Matches(a, s) <==> Matches(b, s)
  }

  lemma ThenMatches(a: Regex, b: Regex, s: string, i: nat)
    requires i <= |s| && Matches(a, s[..i]) && Matches(b, s[i..])
    ensures Matches(Then(a, b), s)
  {
  }

  lemma ThenSplits(a: Regex, b: Regex, s: string) returns (i: nat)
    requires Matches(Then(a, b), s)
    ensures i <= |s| && Matches(a, s[..i]) && Matches(b, s[i..])
  {
    i :| 0 <= i <= |s| && Matches(a, s[..i]) && Matches(b, s[i..]);
  }

  lemma ThenInto(a: Regex, a': Regex, b: Regex, b': Regex, s: string)
    requires Alike(a, a') && Alike(b, b') && Matches(Then(a, b), s)
    ensures Matches(Then(a', b'), s)
  {
    var i := ThenSplits(a, b, s);
    ThenMatches(a', b', s, i);
  }

  lemma ThenAlike(a: Regex, a': Regex, b: Regex, b': Regex)
    requires Alike(a, a') && Alike(b, b')
    ensures Alike(Then(a, b), Then(a', b'))
  {
    forall s ensures Matches(Then(a, b), s) <==> Matches(Then(a', b'), s) {
      if Matches(Then(a, b), s) {
        ThenInto(a, a', b, b', s);
      } else if Matches(Then(a', b'), s) {
        ThenInto(a', a, b', b, s);
      }
    }
  }

  lemma EitherAlike(a: Regex, a': Regex, b: Regex, b': Regex)
    requires Alike(a, a') && Alike(b, b')
    ensures Alike(Either(a, b), Either(a', b'))
  {
  }

  lemma GroupAlike(a: Regex, a': Regex)
    requires Alike(a, a')
    ensures Alike(Group(a), Group(a'))
  {
  }

  lemma {:induction false} RepeatInto(a: Regex, a': Regex, s: string)
    requires Alike(a, a') && Matches(Repeat(a), s)
    ensures Matches(Repeat(a'), s)
    decreases |s|
  {
    if s == "" {
    } else {
      var i :| 0 < i <= |s| && Matches(a, s[..i]) && Matches(Repeat(a), s[i..]);
      RepeatInto(a, a', s[i..]);
    }
  }

  lemma {:induction false} RepeatOnceInto(a: Regex, a': Regex, s: string)
    requires Alike(a, a') && Matches(RepeatOnce(a), s)
    ensures Matches(RepeatOnce(a'), s)
    decreases |s|
  {
    if Matches(a, s) {
    } else {
      var i :| 0 < i < |s| && Matches(a, s[..i]) && Matches(RepeatOnce(a), s[i..]);
      RepeatOnceInto(a, a', s[i..]);
    }
  }

  lemma MarkInto(a: Regex, a': Regex, m: Mark, s: string)
    requires Alike(a, a') && Matches(MarkRegex(a, m), s)
    ensures Matches(MarkRegex(a', m), s)
  {
    match m
    case Once =>
    case Maybe =>
    case Many => RepeatInto(a, a', s);
    case AtLeastOnce => RepeatOnceInto(a, a', s);
  }

  lemma MarkAlike(a: Regex, a': Regex, m: Mark)
    requires Alike(a, a')
    ensures Alike(MarkRegex(a, m), MarkRegex(a', m))
  {
    forall s ensures Matches(MarkRegex(a, m), s) <==> Matches(MarkRegex(a', m), s) {
      if Matches(MarkRegex(a, m), s) {
        MarkInto(a, a', m, s);
      } else if Matches(MarkRegex(a', m), s) {
        MarkInto(a', a, m, s);
      }
    }
  }

  lemma ThenNothing(a: Regex)
    ensures Alike(Then(a, Text("")), a) && Alike(Then(Text(""), a), a)
  {
    forall s
      ensures Matches(Then(a, Text("")), s) <==> Matches(a, s)
      ensures Matches(Then(Text(""), a), s) <==> Matches(a, s)
    {
      assert s[..|s|] == s && s[|s|..] == "" && s[..0] == "" && s[0..] == s;
      if Matches(a, s) {
        ThenMatches(a, Text(""), s, |s|);
        ThenMatches(Text(""), a, s, 0);
      }
      if Matches(Then(a, Text("")), s) {
        var i := ThenSplits(a, Text(""), s);
        assert i == |s|;
      }
      if Matches(Then(Text(""), a), s) {
        var i := ThenSplits(Text(""), a, s);
        assert i == 0;
      }
    }
  }

  lemma ThenRight(a: Regex, b: Regex, c: Regex, s: string)
    requires Matches(Then(Then(a, b), c), s)
    ensures Matches(Then(a, Then(b, c)), s)
  {
    var i := ThenSplits(Then(a, b), c, s);
    var j := ThenSplits(a, b, s[..i]);
    assert s[..i][..j] == s[..j] && s[..i][j..] == s[j..][..i - j] && s[j..][i - j..] == s[i..];
    ThenMatches(b, c, s[j..], i - j);
    ThenMatches(a, Then(b, c), s, j);
  }

  lemma ThenLeft(a: Regex, b: Regex, c: Regex, s: string)
    requires Matches(Then(a, Then(b, c)), s)
    ensures Matches(Then(Then(a, b), c), s)
  {
    var j := ThenSplits(a, Then(b, c), s);
    var k := ThenSplits(b, c, s[j..]);
    assert s[..j + k][..j] == s[..j] && s[..j + k][j..] == s[j..][..k] && s[j..][k..] == s[j + k..];
    ThenMatches(a, b, s[..j + k], j);
    ThenMatches(Then(a, b), c, s, j + k);
  }

  lemma ThenAssociates(a: Regex, b: Regex, c: Regex)
    ensures Alike(Then(Then(a, b), c), Then(a, Then(b, c)))
  {
    forall s ensures Matches(Then(Then(a, b), c), s) <==> Matches(Then(a, Then(b, c)), s) {
      if Matches(Then(Then(a, b), c), s) {
        ThenRight(a, b, c, s);
      } else if Matches(Then(a, Then(b, c)), s) {
        ThenLeft(a, b, c, s);
      }
    }
  }

  lemma AlikeTrans(a: Regex, b: Regex, c: Regex)
    requires Alike(a, b) && Alike(b, c)
    ensures Alike(a, c)
  {
  }

  lemma {:induction false} AppendAlike(x: Branch, y: Branch)
    ensures Alike(BranchRegex(Append(x, y)), Then(BranchRegex(x), BranchRegex(y)))
  {
    match x
    case Empty => ThenNothing(BranchRegex(y));
    case Cons(item, rest) =>
      var first, r, e := MarkRegex(AtomRegex(item.atom), item.mark), BranchRegex(rest), BranchRegex(y);
      AppendAlike(rest, y);
      ThenAlike(first, first, BranchRegex(Append(rest, y)), Then(r, e));
      ThenAssociates(first, r, e);
      AlikeTrans(BranchRegex(Append(x, y)), Then(first, Then(r, e)), Then(Then(first, r), e));
  }

  lemma {:induction false} JoinAlike(x: Alts, y: Alts)
    ensures Alike(AltsRegex(Join(x, y)), Either(AltsRegex(x), AltsRegex(y)))
  {
    match x
    case Last(branch) =>
    case More(branch, others) => JoinAlike(others, y);
  }

  lemma {:induction false} LettersAlike(text: string)
    ensures Alike(Text(text), BranchRegex(Letters(text)))
  {
    if text == "" {
    } else {
      var first, rest := Text([text[0]]), Text(text[1..]);
      LettersAlike(text[1..]);
      TextSplits(text);
      FirstLetter(text[0], Letters(text[1..]));
      ThenAlike(first, first, rest, BranchRegex(Letters(text[1..])));
      AlikeTrans(Text(text), Then(first, rest), BranchRegex(Letters(text)));
    }
  }

  lemma FirstLetter(c: char, rest: Branch)
    ensures BranchRegex(Cons(Item(Letter(c), Once), rest)) == Then(Text([c]), BranchRegex(rest))
  {
  }

  lemma TextSplits(text: string)
    requires text != ""
    ensures Alike(Text(text), Then(Text([text[0]]), Text(text[1..])))
  {
    var first, rest := Text([text[0]]), Text(text[1..]);
    forall s ensures Matches(Text(text), s) <==> Matches(Then(first, rest), s) {
      if s == text {
        assert s[..1] == [text[0]];
        ThenMatches(first, rest, s, 1);
      }
      if Matches(Then(first, rest), s) {
        var i := ThenSplits(first, rest, s);
        CutAt(s, i);
        CutAt(text, 1);
      }
    }
  }

  lemma SingleAlike(re: Regex, a: Atom, m: Mark)
    requires Alike(re, MarkRegex(AtomRegex(a), m))
    ensures Alike(re, BranchRegex(Single(a, m)))
  {
    var one := MarkRegex(AtomRegex(a), m);
    ThenNothing(one);
    AlikeTrans(re, one, Then(one, Text("")));
  }

  /** An expression matches what its shape matches. */
  lemma {:induction false} ShapeAlike(re: Regex)
    requires ReadsBack(re)
    ensures Alike(re, AltsRegex(AltsOf(re)))
    decreases re
  {
    match re
    case Text(text) => LettersAlike(text);
    case In(cls) => SingleAlike(re, Class(cls), Once);
    case Then(a, b) =>
      ShapeAlike(a);
      ShapeAlike(b);
      var x, y := BranchOf(a), BranchOf(b);
      ThenAlike(a, BranchRegex(x), b, BranchRegex(y));
      AppendAlike(x, y);
      AlikeTrans(re, Then(BranchRegex(x), BranchRegex(y)), BranchRegex(Append(x, y)));
    case Either(a, b) =>
      ShapeAlike(a);
      ShapeAlike(b);
      EitherAlike(a, AltsRegex(AltsOf(a)), b, AltsRegex(AltsOf(b)));
      JoinAlike(AltsOf(a), AltsOf(b));
      AlikeTrans(re, Either(AltsRegex(AltsOf(a)), AltsRegex(AltsOf(b))), AltsRegex(AltsOf(re)));
    case Group(a) =>
      UnitAlike(re);
      SingleAlike(re, AtomOf(re), Once);
    case Optional(a) => MarkedAlike(a, Maybe);
    case Repeat(a) => MarkedAlike(a, Many);
    case RepeatOnce(a) => MarkedAlike(a, AtLeastOnce);
  }

  lemma {:induction false} MarkedAlike(a: Regex, m: Mark)
    requires ReadsBack(a) && IsUnit(a)
    ensures Alike(MarkRegex(a, m), BranchRegex(Single(AtomOf(a), m)))
    decreases a, 1
  {
    UnitAlike(a);
    MarkAlike(a, AtomRegex(AtomOf(a)), m);
    SingleAlike(MarkRegex(a, m), AtomOf(a), m);
  }

  lemma {:induction false} UnitAlike(re: Regex)
    requires ReadsBack(re) && IsUnit(re)
    ensures Alike(re, AtomRegex(AtomOf(re)))
    decreases re, 0
  {
    match re
    case Text(text) => assert text == [text[0]];
    case In(cls) =>
    case Group(a) =>
      ShapeAlike(a);
      GroupAlike(a, AltsRegex(AltsOf(a)));
  }

  /** Expressions with the same text match the same strings. */
  lemma SameTextSameLanguage(re: Regex, other: Regex, s: string)
    requires ReadsBack(re) && ReadsBack(other) && Show(re) == Show(other)
    ensures Matches(re, s) <==> Matches(other, s)
  {
    ShowShape(re);
    ShowShape(other);
    assert ShowAlts(AltsOf(re)) + "" == ShowAlts(AltsOf(other)) + "";
    UniqueAlts(AltsOf(re), AltsOf(other), "", "");
    ShapeAlike(re);
    ShapeAlike(other);
  }

  /** However the text written for a domain is read, it matches the URLs whose host is the domain or lies under it. */
  lemma RuleTextDecides(d: string, re: Regex, url: string)
    requires IsDomain(d) && ReadsBack(re) && DomainRule(d) == "^" + Show(re) + "$"
    ensures Matches(re, Fold(url)) <==> Allows(d, Fold(url))
  {
    RuleTextIsRegex(d);
    BetweenAnchors(Show(re), Show(RuleRegex(d)));
    SameTextSameLanguage(re, RuleRegex(d), Fold(url));
    RuleMatchesAllowed(d, url);
  }

  lemma BetweenAnchors(x: string, y: string)
    requires "^" + x + "$" == "^" + y + "$"
    ensures x == y
  {
    assert ("^" + x + "$")[1..][..|x|] == x;
    assert ("^" + y + "$")[1..][..|y|] == y;
  }
}
