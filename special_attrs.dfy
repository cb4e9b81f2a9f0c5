/**
 * Parsing of the `class` and `style` attribute values of an element
 * (src/view/helpers/specialAttrs.js).
 *
 * `ReadClass` splits a class string on runs of white space and then removes
 * the empty entries with a backwards splice loop, as the source does.
 * `ReadStyle` turns a CSS declaration list into a map from (camelized)
 * property name to value. The comment/string masking helper `cleanCss` and
 * `camelizeHyphenated` are not part of this model: they are passed in as
 * functions.
 */
module SpecialAttrs {

  /** The characters of JavaScript's `\s` class, which `String.prototype.trim` also removes. */
  const Spaces: set<char> := {
    '\t', '\n', '\U{B}', '\U{C}', '\r', ' ', '\U{A0}', '\U{1680}',
    '\U{2000}', '\U{2001}', '\U{2002}', '\U{2003}', '\U{2004}', '\U{2005}',
    '\U{2006}', '\U{2007}', '\U{2008}', '\U{2009}', '\U{200A}',
    '\U{2028}', '\U{2029}', '\U{202F}', '\U{205F}', '\U{3000}', '\U{FEFF}'
  }

  predicate IsSpace(c: char) {
    c in Spaces
  }

  predicate NoSpace(s: string) {
    forall i :: 0 <= i < |s| ==> !IsSpace(s[i])
  }

  predicate AllSpace(s: string) {
    forall i :: 0 <= i < |s| ==> IsSpace(s[i])
  }

  /** The length of the white-space run at the start of `s`. */
  function LeadingSpace(s: string): (k: nat)
    ensures k <= |s|
    ensures forall i :: 0 <= i < k ==> IsSpace(s[i])
    ensures k < |s| ==> !IsSpace(s[k])
  {
    if s != [] && IsSpace(s[0]) then
      var k := LeadingSpace(s[1..]);
      assert forall i :: 1 <= i < k + 1 ==> s[i] == s[1..][i - 1];
      k + 1
    else 0
  }

  /** The length of the white-space run at the end of `s`. */
  function TrailingSpace(s: string): (k: nat)
    ensures k <= |s|
    ensures forall i :: |s| - k <= i < |s| ==> IsSpace(s[i])
    ensures k < |s| ==> !IsSpace(s[|s| - k - 1])
  {
    if s != [] && IsSpace(s[|s| - 1]) then
      var k := TrailingSpace(s[..|s| - 1]);
      assert forall i :: |s| - k - 1 <= i < |s| - 1 ==> s[i] == s[..|s| - 1][i];
      k + 1
    else 0
  }

  /** Drops the leading white space of `s`. */
  function TrimStart(s: string): (r: string)
    ensures |r| <= |s| && r == s[|s| - |r|..]
    ensures r == [] || !IsSpace(r[0])
  {
    s[LeadingSpace(s)..]
  }

  /** Drops the trailing white space of `s`. */
  function TrimEnd(s: string): (r: string)
    ensures |r| <= |s| && r == s[..|r|]
    ensures r == [] || !IsSpace(r[|r| - 1])
  {
    s[..|s| - TrailingSpace(s)]
  }

  /** `String.prototype.trim`: what is left neither starts nor ends with white space. */
  function Trim(s: string): (r: string)
    ensures |r| <= |s|
    ensures r == [] || (!IsSpace(r[0]) && !IsSpace(r[|r| - 1]))
  {
    var t := TrimStart(s);
    var r := TrimEnd(t);
    assert r != [] ==> r[0] == t[0];
    r
  }

  /** Trimming removes exactly a white-space prefix and a white-space suffix. */
  lemma {:induction false} TrimIsInfix(s: string)
    ensures exists pre, post ::
              s == pre + Trim(s) + post && AllSpace(pre) && AllSpace(post)
  {
    var t := TrimStart(s);
    var r := TrimEnd(t);
    var pre, post := s[..|s| - |t|], t[|r|..];
    JoinThree(s, pre, t, r, post);
    assert LeadingSpace(s) == |pre|;
    SpacePrefix(s, |pre|);
    assert TrailingSpace(t) == |post|;
    SpaceSuffix(t, |post|);
  }

  /** `s` is `pre` then `t`, and `t` is `r` then `post`. */
  lemma JoinThree(s: string, pre: string, t: string, r: string, post: string)
    requires |pre| <= |s| && pre == s[..|pre|] && t == s[|pre|..]
    requires |r| <= |t| && r == t[..|r|] && post == t[|r|..]
    ensures s == pre + r + post
  {
    assert t == r + post;
    assert s == pre + t;
  }

  /** A prefix made of white space, as LeadingSpace finds it. */
  lemma SpacePrefix(s: string, k: nat)
    requires k <= |s| && forall i :: 0 <= i < k ==> IsSpace(s[i])
    ensures AllSpace(s[..k])
  {
    assert forall i :: 0 <= i < k ==> s[..k][i] == s[i];
  }

  /** A suffix made of white space, as TrailingSpace finds it. */
  lemma SpaceSuffix(s: string, k: nat)
    requires k <= |s| && forall i :: |s| - k <= i < |s| ==> IsSpace(s[i])
    ensures AllSpace(s[|s| - k..])
  {
    var suffix := s[|s| - k..];
    assert forall i :: 0 <= i < k ==> suffix[i] == s[|s| - k + i];
  }

  // ---------------------------------------------------------------------------
  // readClass
  // ---------------------------------------------------------------------------

  /**
   * The pieces between maximal runs of white space, collecting the current
   * piece in `cur`; the behaviour of `s.split(/\s+/)`, which yields an empty
   * first (last) piece when `s` starts (ends) with white space.
   */
  function SplitFrom(s: string, cur: string): seq<string>
    decreases |s|
  {
    if s == [] then [cur]
    else if IsSpace(s[0]) then [cur] + SplitFrom(TrimStart(s[1..]), [])
    else SplitFrom(s[1..], cur + [s[0]])
  }

  /**
   * `s.split(/\s+/)`: at least one piece, no piece holds white space, and
   * the pieces put together are the visible characters of `s`.
   */
  function SplitOnSpace(s: string): (pieces: seq<string>)
    ensures |pieces| >= 1
    ensures forall p <- pieces :: NoSpace(p)
    ensures Concat(pieces) == Visible(s)
  {
    SplitFromWords(s, []);
    ConcatSplitFrom(s, []);
    SplitFromLength(s, []);
    SplitFrom(s, [])
  }

  lemma {:induction false} SplitFromLength(s: string, cur: string)
    ensures |SplitFrom(s, cur)| >= 1
    decreases |s|
  {
    if s != [] && !IsSpace(s[0]) {
      SplitFromLength(s[1..], cur + [s[0]]);
    }
  }

  /** No piece of the split contains white space. */
  lemma {:induction false} SplitFromWords(s: string, cur: string)
    requires NoSpace(cur)
    ensures forall p <- SplitFrom(s, cur) :: NoSpace(p)
    decreases |s|
  {
    if s == [] {
    } else if IsSpace(s[0]) {
      SplitFromWords(TrimStart(s[1..]), []);
    } else {
      assert NoSpace(cur + [s[0]]);
      SplitFromWords(s[1..], cur + [s[0]]);
    }
  }

  /** The entries of `list` that are not the empty string, in order. */
  function NonEmpty(list: seq<string>): seq<string> {
    if list == [] then []
    else (if list[0] == [] then [] else [list[0]]) + NonEmpty(list[1..])
  }

  /** What `readClass` returns: the class names of `str`. */
  function ClassNames(str: string): seq<string> {
    NonEmpty(SplitOnSpace(str))
  }

  /**
   * readClass: split on white space, then walk the list backwards and splice
   * out every empty entry in place.
   */
  method ReadClass(str: string) returns (list: seq<string>)
    ensures list == ClassNames(str)
    ensures forall name <- list :: name != [] && NoSpace(name)
  {
    list := SplitOnSpace(str);
    ghost var pieces := list;
    var i := |list|;
    while i > 0
      invariant 0 <= i <= |pieces|
      invariant list == pieces[..i] + NonEmpty(pieces[i..])
    {
      i := i - 1;
      SpliceStep(pieces, list, i);
      if list[i] == [] {
        list := list[..i] + list[i + 1..];
      }
    }
    assert pieces[0..] == pieces;
    SplitFromWords(str, []);
    NonEmptyKeepsWords(pieces);
  }

  /** Looking at entry `i` of the list, spliced out when empty, extends the cleaned tail by one entry. */
  lemma SpliceStep(pieces: seq<string>, list: seq<string>, i: nat)
    requires i < |pieces| && list == pieces[..i + 1] + NonEmpty(pieces[i + 1..])
    ensures i < |list| && list[i] == pieces[i]
    ensures list[i] == [] ==> list[..i] + list[i + 1..] == pieces[..i] + NonEmpty(pieces[i..])
    ensures list[i] != [] ==> list == pieces[..i] + NonEmpty(pieces[i..])
  {
    assert pieces[i..][1..] == pieces[i + 1..];
    assert list[..i] == pieces[..i];
    assert list[i + 1..] == NonEmpty(pieces[i + 1..]);
    assert pieces[..i + 1] == pieces[..i] + [pieces[i]];
  }

  lemma {:induction false} NonEmptyKeepsWords(list: seq<string>)
    requires forall p <- list :: NoSpace(p)
    ensures forall name <- NonEmpty(list) :: name != [] && NoSpace(name)
  {
    if list != [] {
      NonEmptyKeepsWords(list[1..]);
    }
  }

  function Concat(list: seq<string>): string {
    if list == [] then [] else list[0] + Concat(list[1..])
  }

  /** The characters of `s` that are not white space, in order. */
  function Visible(s: string): string {
    if s == [] then [] else (if IsSpace(s[0]) then [] else [s[0]]) + Visible(s[1..])
  }

  lemma {:induction false} VisibleAllSpace(s: string)
    requires AllSpace(s)
    ensures Visible(s) == []
  {
    if s != [] {
      assert AllSpace(s[1..]) by {
        forall i | 0 <= i < |s[1..]| ensures IsSpace(s[1..][i]) {
          assert s[1..][i] == s[i + 1];
        }
      }
      VisibleAllSpace(s[1..]);
    }
  }

  lemma {:induction false} VisibleAppend(a: string, b: string)
    ensures Visible(a + b) == Visible(a) + Visible(b)
  {
    if a != [] {
      assert (a + b)[0] == a[0] && (a + b)[1..] == a[1..] + b;
      VisibleAppend(a[1..], b);
      var head: string := if IsSpace(a[0]) then [] else [a[0]];
      assert Visible(a + b) == head + Visible(a[1..] + b);
      assert Visible(a) == head + Visible(a[1..]);
    } else {
      assert a + b == b;
    }
  }

  lemma {:induction false} ConcatAppend(a: seq<string>, b: seq<string>)
    ensures Concat(a + b) == Concat(a) + Concat(b)
  {
    if a != [] {
      assert (a + b)[0] == a[0] && (a + b)[1..] == a[1..] + b;
      ConcatAppend(a[1..], b);
      assert Concat(a + b) == a[0] + Concat(a[1..] + b);
    } else {
      assert a + b == b;
    }
  }

  lemma {:induction false} SkippedSpace(t: string)
    ensures Visible(t) == Visible(TrimStart(t))
  {
    var k := LeadingSpace(t);
    var skipped := t[..k];
    assert t == skipped + t[k..];
    assert AllSpace(skipped) by {
      forall i | 0 <= i < k ensures IsSpace(skipped[i]) {
        assert skipped[i] == t[i];
      }
    }
    VisibleAllSpace(skipped);
    VisibleAppend(skipped, t[k..]);
  }

  lemma {:induction false} ConcatSplitFrom(s: string, cur: string)
    ensures Concat(SplitFrom(s, cur)) == cur + Visible(s)
    decreases |s|
  {
    if s == [] {
    } else if IsSpace(s[0]) {
      var rest := TrimStart(s[1..]);
      ConcatSplitFrom(rest, []);
      SkippedSpace(s[1..]);
      ConcatAppend([cur], SplitFrom(rest, []));
      assert Concat([cur]) == cur + [];
    } else {
      ConcatSplitFrom(s[1..], cur + [s[0]]);
    }
  }

  lemma {:induction false} ConcatNonEmpty(list: seq<string>)
    ensures Concat(NonEmpty(list)) == Concat(list)
  {
    if list != [] {
      ConcatNonEmpty(list[1..]);
      var head := if list[0] == [] then [] else [list[0]];
      ConcatAppend(head, NonEmpty(list[1..]));
      assert Concat(head) == list[0] + [];
    }
  }

  /**
   * The class names are the visible characters of the string, in their
   * original left-to-right order, cut into non-empty, white-space-free pieces.
   */
  lemma ClassNamesKeepOrder(str: string)
    ensures Concat(ClassNames(str)) == Visible(str)
    ensures forall name <- ClassNames(str) :: name != [] && NoSpace(name)
  {
    ConcatNonEmpty(SplitOnSpace(str));
    ConcatSplitFrom(str, []);
    SplitFromWords(str, []);
    NonEmptyKeepsWords(SplitOnSpace(str));
  }

  lemma {:induction false} VisibleEmpty(s: string)
    ensures Visible(s) == [] <==> AllSpace(s)
  {
    if s != [] {
      VisibleEmpty(s[1..]);
      assert Visible(s) == [] ==> IsSpace(s[0]);
    }
  }

  /** An empty or all-white-space class string has no class names, and only such a string. */
  lemma ClassNamesBlank(str: string)
    ensures ClassNames(str) == [] <==> AllSpace(str)
  {
    ClassNamesKeepOrder(str);
    VisibleEmpty(str);
    var names := ClassNames(str);
    if names != [] {
      assert names == [names[0]] + names[1..];
      ConcatAppend([names[0]], names[1..]);
      assert Concat([names[0]]) == names[0] + [];
      assert names[0] in names;
      assert Concat(names) != [];
    }
  }

  /** Class names joined by single spaces, as a template author writes them. */
  function JoinSpace(names: seq<string>): string {
    if names == [] then []
    else if |names| == 1 then names[0]
    else names[0] + " " + JoinSpace(names[1..])
  }

  lemma {:induction false} SplitFromWord(w: string, rest: string, cur: string)
    requires NoSpace(cur) && NoSpace(w)
    ensures SplitFrom(w + rest, cur) == SplitFrom(rest, cur + w)
    decreases |w|
  {
    if w != [] {
      assert (w + rest)[0] == w[0] && !IsSpace(w[0]);
      assert (w + rest)[1..] == w[1..] + rest;
      assert cur + w == (cur + [w[0]]) + w[1..];
      assert NoSpace(cur + [w[0]]) && NoSpace(w[1..]) by {
        forall i | 0 <= i < |w[1..]| ensures !IsSpace(w[1..][i]) {
          assert w[1..][i] == w[i + 1];
        }
      }
      SplitFromWord(w[1..], rest, cur + [w[0]]);
    } else {
      assert w + rest == rest && cur + w == cur;
    }
  }

  lemma {:induction false} JoinSpaceStart(names: seq<string>)
    requires names != [] && names[0] != []
    ensures JoinSpace(names) != [] && JoinSpace(names)[0] == names[0][0]
  {
    if |names| > 1 {
      assert JoinSpace(names) == names[0] + (" " + JoinSpace(names[1..]));
    }
  }

  lemma {:induction false} SplitFromJoin(names: seq<string>, cur: string)
    requires names != []
    requires NoSpace(cur)
    requires forall n <- names :: n != [] && NoSpace(n)
    ensures SplitFrom(JoinSpace(names), cur) == [cur + names[0]] + names[1..]
  {
    var first := names[0];
    assert first in names;
    if |names| == 1 {
      assert JoinSpace(names) == first + [];
      SplitFromWord(first, [], cur);
      assert SplitFrom([], cur + first) == [cur + first];
    } else {
      var tail := JoinSpace(names[1..]);
      var rest := " " + tail;
      assert JoinSpace(names) == first + rest;
      SplitFromWord(first, rest, cur);
      assert names[1] in names;
      JoinSpaceStart(names[1..]);
      SplitFromSpace(tail, cur + first);
      SplitFromJoin(names[1..], []);
      assert [] + names[1] == names[1];
      assert [names[1]] + names[2..] == names[1..];
    }
  }

  /** One space before a piece that starts with a visible character closes the current piece. */
  lemma SplitFromSpace(tail: string, cur: string)
    requires tail != [] && !IsSpace(tail[0])
    ensures SplitFrom(" " + tail, cur) == [cur] + SplitFrom(tail, [])
  {
    var rest := " " + tail;
    assert rest[0] == ' ' && IsSpace(rest[0]) && rest[1..] == tail;
    assert LeadingSpace(tail) == 0;
    assert TrimStart(tail) == tail;
  }

  lemma {:induction false} NonEmptyIdentity(list: seq<string>)
    requires forall n <- list :: n != []
    ensures NonEmpty(list) == list
  {
    if list != [] {
      assert forall n <- list[1..] :: n in list;
      NonEmptyIdentity(list[1..]);
      assert list[0] in list;
      assert [list[0]] + list[1..] == list;
    }
  }

  /** Reading back a space-joined list of class names gives exactly that list. */
  lemma ClassNamesRoundTrip(names: seq<string>)
    requires forall n <- names :: n != [] && NoSpace(n)
    ensures ClassNames(JoinSpace(names)) == names
  {
    if names != [] {
      SplitFromJoin(names, []);
      assert [] + names[0] == names[0];
      assert [names[0]] + names[1..] == names;
      NonEmptyIdentity(names);
    }
  }

  // ---------------------------------------------------------------------------
  // readStyle
  // ---------------------------------------------------------------------------

  /** The attribute value handed to readStyle: a string, or any other value. */
  datatype StyleValue = Text(css: string) | NotText

  /**
   * What `cleanCss` hands to its callback: the CSS text with comments and
   * quoted strings masked, and the function that restores the masked parts.
   */
  datatype Cleaned = Cleaned(masked: string, reconstruct: string -> string)

  datatype Declaration = Declaration(name: string, value: string)

  /** `str.split(sep)` for a one-character separator. */
  function SplitOn(s: string, sep: char): (pieces: seq<string>)
    ensures |pieces| >= 1
    ensures forall p <- pieces :: sep !in p
  {
    if s == [] then [[]]
    else if s[0] == sep then [[]] + SplitOn(s[1..], sep)
    else
      var rest := SplitOn(s[1..], sep);
      [[s[0]] + rest[0]] + rest[1..]
  }

  function JoinOn(pieces: seq<string>, sep: char): string
    requires |pieces| >= 1
  {
    if |pieces| == 1 then pieces[0] else pieces[0] + [sep] + JoinOn(pieces[1..], sep)
  }

  /** Splitting on `;` loses nothing: joining the rules back with `;` gives the input. */
  lemma {:induction false} SplitOnRoundTrip(s: string, sep: char)
    ensures JoinOn(SplitOn(s, sep), sep) == s
  {
    if s != [] {
      SplitOnRoundTrip(s[1..], sep);
      var rest := SplitOn(s[1..], sep);
      var pieces := SplitOn(s, sep);
      if s[0] == sep {
        assert pieces[1..] == rest;
        assert JoinOn(pieces, sep) == [] + [sep] + JoinOn(rest, sep);
      } else if |rest| == 1 {
        assert JoinOn(pieces, sep) == [s[0]] + rest[0];
      } else {
        assert pieces[1..] == rest[1..];
        assert JoinOn(rest, sep) == rest[0] + [sep] + JoinOn(rest[1..], sep);
        assert JoinOn(pieces, sep) == [s[0]] + rest[0] + [sep] + JoinOn(rest[1..], sep);
      }
    }
  }

  /** The rules that are not blank after trimming, in order (the `filter` step). */
  function NonBlank(rules: seq<string>): (kept: seq<string>)
    ensures |kept| <= |rules|
    ensures forall r <- kept :: r in rules && Trim(r) != []
  {
    if rules == [] then []
    else (if Trim(rules[0]) == [] then [] else [rules[0]]) + NonBlank(rules[1..])
  }

  lemma {:induction false} NonBlankMembers(rules: seq<string>, r: string)
    ensures r in NonBlank(rules) <==> r in rules && Trim(r) != []
  {
    if rules != [] {
      NonBlankMembers(rules[1..], r);
      assert rules == [rules[0]] + rules[1..];
    }
  }

  /** `s.indexOf(c)`: the first position of `c`, or -1. */
  function IndexOf(s: string, c: char): (i: int)
    ensures -1 <= i < |s|
    ensures i == -1 <==> c !in s
    ensures i >= 0 ==> s[i] == c && c !in s[..i]
  {
    if s == [] then -1
    else if s[0] == c then 0
    else
      var j := IndexOf(s[1..], c);
      if j == -1 then -1
      else
        assert s[..j + 1] == [s[0]] + s[1..][..j];
        j + 1
  }

  /** `rule.substr(0, i)`: a negative length gives the empty string. */
  function NamePart(rule: string): (name: string)
    ensures ':' !in name && |name| <= |rule| && name == rule[..|name|]
    ensures ':' !in rule ==> name == []
  {
    var i := IndexOf(rule, ':');
    if i < 0 then [] else rule[..i]
  }

  /** `rule.substr(i + 1)`: with no colon this is the whole rule. */
  function ValuePart(rule: string): (value: string)
    ensures ':' in rule ==> rule == NamePart(rule) + [':'] + value
    ensures ':' !in rule ==> value == rule
  {
    var i := IndexOf(rule, ':');
    assert i >= 0 ==> rule == rule[..i] + [':'] + rule[i + 1..];
    assert rule[0..] == rule;
    rule[i + 1..]
  }

  /** The `specials` table: `float` is exposed to the DOM as `cssFloat`. */
  function Special(name: string): (exposed: string)
    ensures exposed != "float"
    ensures name == "float" ==> exposed == "cssFloat"
    ensures name != "float" ==> exposed == name
  {
    if name == "float" then "cssFloat" else name
  }

  /** One rule read as a declaration: the name is never `float`, and the value is trimmed. */
  function Declare(rule: string, camelize: string -> string): (d: Declaration)
    ensures d.name != "float"
    ensures d.value == [] || (!IsSpace(d.value[0]) && !IsSpace(d.value[|d.value| - 1]))
    ensures ':' !in rule ==> d.value == Trim(rule)
  {
    Declaration(Special(camelize(Trim(NamePart(rule)))), Trim(ValuePart(rule)))
  }

  /** The declarations of a style string, one per non-blank rule, in order. */
  function Declarations(css: string, clean: string -> Cleaned, camelize: string -> string): (decls: seq<Declaration>)
    ensures |decls| == |NonBlank(SplitOn(clean(css).masked, ';'))|
  {
    var c := clean(css);
    var rules := NonBlank(SplitOn(c.masked, ';'));
    seq(|rules|, i requires 0 <= i < |rules| => Declare(c.reconstruct(rules[i]), camelize))
  }

  /** The `reduce` step: each declaration overwrites the entry for its name. */
  function Collect(decls: seq<Declaration>): (m: map<string, string>)
    ensures forall j :: 0 <= j < |decls| ==> decls[j].name in m
    ensures |m| <= |decls|
  {
    if decls == [] then map[]
    else
      var n := |decls| - 1;
      var init := decls[..n];
      assert forall j :: 0 <= j < n ==> decls[j] == init[j];
      Collect(init)[decls[n].name := decls[n].value]
  }

  /**
   * readStyle: a non-string gives the empty map; otherwise the map has one
   * key per declared name.
   */
  function ReadStyle(attr: StyleValue, clean: string -> Cleaned, camelize: string -> string): (rules: map<string, string>)
    ensures attr.NotText? ==> rules == map[]
    ensures attr.Text? ==> forall k ::
              k in rules <==> exists d <- Declarations(attr.css, clean, camelize) :: d.name == k
  {
    match attr
    case NotText => map[]
    case Text(css) =>
      var decls := Declarations(css, clean, camelize);
      CollectKeys(decls);
      Collect(decls)
  }

  /** A name is a key of the collected map exactly when some declaration declares it. */
  lemma {:induction false} CollectedNames(decls: seq<Declaration>, k: string)
    ensures k in Collect(decls) <==> exists j :: 0 <= j < |decls| && decls[j].name == k
  {
    if decls != [] {
      var n := |decls| - 1;
      var init := decls[..n];
      CollectedNames(init, k);
      if decls[n].name != k && k !in Collect(init) {
        forall j | 0 <= j < |decls| ensures decls[j].name != k {
          if j < n { assert decls[j] == init[j]; }
        }
      } else if decls[n].name != k {
        var j :| 0 <= j < n && init[j].name == k;
        assert decls[j] == init[j];
      }
    }
  }

  /**
   * When a name is declared more than once the last declaration wins: the
   * value of a key is that of declaration `j`, the last one with that name.
   */
  lemma {:induction false} LaterDeclarationWins(decls: seq<Declaration>, k: string) returns (j: nat)
    requires k in Collect(decls)
    ensures j < |decls| && decls[j].name == k && Collect(decls)[k] == decls[j].value
    ensures forall l :: j < l < |decls| ==> decls[l].name != k
  {
    var n := |decls| - 1;
    var init := decls[..n];
    if decls[n].name == k {
      j := n;
    } else {
      j := LaterDeclarationWins(init, k);
      assert decls[j] == init[j];
    }
  }

  lemma CollectKeys(decls: seq<Declaration>)
    ensures forall k :: k in Collect(decls) <==> exists d <- decls :: d.name == k
  {
    forall k ensures k in Collect(decls) <==> exists d <- decls :: d.name == k {
      CollectedNames(decls, k);
    }
  }

  /**
   * The name part of a rule is the text before its first colon and the value
   * part the text after it; `Declare` trims both and camelizes the name.
   */
  lemma {:induction false} DeclarationSplitsAtFirstColon(rule: string)
    requires ':' in rule
    ensures exists i :: 0 <= i < |rule| && rule[i] == ':' && ':' !in rule[..i] &&
                        NamePart(rule) == rule[..i] && ValuePart(rule) == rule[i + 1..]
  {
    var i := IndexOf(rule, ':');
    assert rule[i] == ':' && ':' !in rule[..i];
  }

  /**
   * A rule with a colon declares the trimmed, camelized text before its
   * first colon (renamed if special) with the trimmed text after it.
   */
  lemma DeclareAtFirstColon(rule: string, camelize: string -> string)
    requires ':' in rule
    ensures exists i :: 0 <= i < |rule| && rule[i] == ':' && ':' !in rule[..i] &&
                        Declare(rule, camelize) == Declaration(Special(camelize(Trim(rule[..i]))), Trim(rule[i + 1..]))
  {
    DeclarationSplitsAtFirstColon(rule);
  }

  /**
   * A rule without a colon declares the camelized empty name, with the whole
   * trimmed rule as its value (`indexOf` gives -1, so `substr(0, -1)` is
   * empty and `substr(0)` is everything).
   */
  lemma {:induction false} DeclarationWithoutColon(rule: string, camelize: string -> string)
    requires ':' !in rule
    ensures Declare(rule, camelize) == Declaration(Special(camelize([])), Trim(rule))
  {
    assert rule[0..] == rule;
    assert NamePart(rule) == [];
  }

  /**
   * Every declaration read from a style string comes from a rule of the
   * masked text that is not blank after trimming.
   */
  lemma DeclarationsFromNonBlankRules(css: string, clean: string -> Cleaned, camelize: string -> string, j: int)
    requires 0 <= j < |Declarations(css, clean, camelize)|
    ensures exists rule :: rule in SplitOn(clean(css).masked, ';') && Trim(rule) != [] && ';' !in rule &&
              Declarations(css, clean, camelize)[j] == Declare(clean(css).reconstruct(rule), camelize)
  {
    var rules := NonBlank(SplitOn(clean(css).masked, ';'));
    NonBlankMembers(SplitOn(clean(css).masked, ';'), rules[j]);
  }
}
