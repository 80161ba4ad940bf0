/** Exact string replacement in a file: counting, splitting, and the two replacement paths. */
module FileEdit {
  import opened Text

  predicate MatchesAt(c: string, s: string, k: nat) {
    k + |s| <= |c| && c[k..k + |s|] == s
  }

  /** `c.indexOf(s, from)`. */
  function IndexOf(c: string, s: string, from: nat): (r: Option<nat>)
    ensures r.Some? ==> from <= r.value && r.value + |s| <= |c|
    decreases |c| - from
  {
    if from + |s| > |c| then None
    else if MatchesAt(c, s, from) then Some(from)
    else IndexOf(c, s, from + 1)
  }

  predicate FirstMatch(c: string, s: string, from: nat, r: Option<nat>) {
    match r
    case None => forall k :: from <= k <= |c| ==> !MatchesAt(c, s, k)
    case Some(at) => from <= at && MatchesAt(c, s, at) && forall k :: from <= k < at ==> !MatchesAt(c, s, k)
  }

  /** The index is the first match at or after `from`, and there is only one such answer. */
  lemma {:induction false} IndexIsFirst(c: string, s: string, from: nat, r: Option<nat>)
    ensures FirstMatch(c, s, from, r) <==> r == IndexOf(c, s, from)
    decreases |c| - from
  {
    if from + |s| <= |c| {
      if !MatchesAt(c, s, from) {
        IndexIsFirst(c, s, from + 1, r);
      } else if r.Some? && r.value != from {
        assert FirstMatch(c, s, from, r) ==> !MatchesAt(c, s, from);
      }
    }
  }

  /** `c.slice(from).split(s)`: cut at the leftmost match, resume right after it. */
  function SplitFrom(c: string, s: string, from: nat): (parts: seq<string>)
    requires s != "" && from <= |c|
    ensures parts != []
    decreases |c| - from
  {
    match IndexOf(c, s, from)
    case None => [c[from..]]
    case Some(k) => [c[from..k]] + SplitFrom(c, s, k + |s|)
  }

  function Count(c: string, s: string, from: nat): nat
    requires s != "" && from <= |c|
  {
    |SplitFrom(c, s, from)| - 1
  }

  function JoinWith(parts: seq<string>, s: string): string {
    if parts == [] then ""
    else if |parts| == 1 then parts[0]
    else parts[0] + s + JoinWith(parts[1..], s)
  }

  method CountOccurrences(c: string, s: string) returns (count: nat)
    requires s != ""
    ensures count == Count(c, s, 0)
  {
    count := 0;
    var pos := 0;
    var found := IndexOf(c, s, pos);
    while found.Some?
      invariant pos <= |c| && found == IndexOf(c, s, pos)
      invariant count + Count(c, s, pos) == Count(c, s, 0)
      decreases |c| - pos
    {
      count := count + 1;
      pos := found.value + |s|;
      found := IndexOf(c, s, pos);
    }
  }

  // ---------------------------------------------------------------------------------------------
  // What the count means
  // ---------------------------------------------------------------------------------------------

  /** Positions, in order, of matches that do not overlap. */
  predicate Disjoint(c: string, s: string, from: nat, at: seq<nat>)
    decreases |at|
  {
    at == [] || (from <= at[0] && MatchesAt(c, s, at[0]) && Disjoint(c, s, at[0] + |s|, at[1..]))
  }

  /** The positions the count counts. */
  function Cuts(c: string, s: string, from: nat): seq<nat>
    requires s != "" && from <= |c|
    decreases |c| - from
  {
    match IndexOf(c, s, from)
    case None => []
    case Some(k) => [k] + Cuts(c, s, k + |s|)
  }

  /** The count is the largest number of matches of which no two overlap. */
  lemma CountIsMaximal(c: string, s: string, at: seq<nat>)
    requires s != "" && Disjoint(c, s, 0, at)
    ensures |at| <= Count(c, s, 0)
    ensures |Cuts(c, s, 0)| == Count(c, s, 0) && Disjoint(c, s, 0, Cuts(c, s, 0))
  {
    NoMoreThanCounted(c, s, 0, at);
    CutsAreCounted(c, s, 0);
    CutsAreDisjoint(c, s, 0);
  }

  lemma {:induction false} NoMoreThanCounted(c: string, s: string, from: nat, at: seq<nat>)
    requires s != "" && from <= |c| && Disjoint(c, s, from, at)
    ensures |at| <= Count(c, s, from)
    decreases |at|
  {
    if at != [] {
      IndexBefore(c, s, from, at[0]);
      var k := IndexOf(c, s, from).value;
      assert Disjoint(c, s, k + |s|, at[1..]);
      NoMoreThanCounted(c, s, k + |s|, at[1..]);
    }
  }

  lemma IndexBefore(c: string, s: string, from: nat, at: nat)
    requires from <= at && MatchesAt(c, s, at)
    ensures IndexOf(c, s, from).Some? && IndexOf(c, s, from).value <= at
  {
    IndexIsFirst(c, s, from, IndexOf(c, s, from));
  }

  lemma IndexMatches(c: string, s: string, from: nat, k: nat)
    requires IndexOf(c, s, from) == Some(k)
    ensures from <= k && MatchesAt(c, s, k)
  {
    IndexIsFirst(c, s, from, Some(k));
  }

  lemma DisjointCons(c: string, s: string, from: nat, k: nat, rest: seq<nat>)
    requires from <= k && MatchesAt(c, s, k) && Disjoint(c, s, k + |s|, rest)
    ensures Disjoint(c, s, from, [k] + rest)
  {
    assert ([k] + rest)[1..] == rest;
  }

  lemma {:induction false} CutsAreCounted(c: string, s: string, from: nat)
    requires s != "" && from <= |c|
    ensures |Cuts(c, s, from)| == Count(c, s, from)
    decreases |c| - from
  {
    var r := IndexOf(c, s, from);
    if r.Some? {
      CutsAreCounted(c, s, r.value + |s|);
    }
  }

  lemma {:induction false} CutsAreDisjoint(c: string, s: string, from: nat)
    requires s != "" && from <= |c|
    ensures Disjoint(c, s, from, Cuts(c, s, from))
    decreases |c| - from
  {
    var r := IndexOf(c, s, from);
    if r.Some? {
      IndexMatches(c, s, from, r.value);
      CutsAreDisjoint(c, s, r.value + |s|);
      DisjointCons(c, s, from, r.value, Cuts(c, s, r.value + |s|));
    }
  }

  /** A proper prefix of `s` is also its suffix. */
  ghost predicate Bordered(s: string) {
    exists b :: 0 < b < |s| && IsBorder(s, b)
  }

  predicate IsBorder(s: string, b: nat) {
    b <= |s| && s[..b] == s[|s| - b..]
  }

  ghost predicate UniqueMatch(c: string, s: string) {
    exists k: nat :: MatchesAt(c, s, k) && forall j: nat :: MatchesAt(c, s, j) ==> j == k
  }

  ghost predicate CountOneMeansUnique(s: string)
    requires s != ""
  {
    forall c :: Count(c, s, 0) == 1 ==> UniqueMatch(c, s)
  }

  lemma OverlapIsBorder(c: string, s: string, i: nat, j: nat)
    requires i < j < i + |s| && MatchesAt(c, s, i) && MatchesAt(c, s, j)
    ensures IsBorder(s, i + |s| - j)
  {
    var b := i + |s| - j;
    assert s[..b] == c[j..j + |s|][..b] == c[j..j + b];
    assert s[|s| - b..] == c[i..i + |s|][|s| - b..] == c[j..j + b];
  }

  lemma MatchPair(c: string, s: string, i: nat, j: nat)
    requires s != "" && i < j && MatchesAt(c, s, i) && MatchesAt(c, s, j) && !Bordered(s)
    ensures Count(c, s, 0) >= 2
  {
    if j < i + |s| {
      OverlapIsBorder(c, s, i, j);
      assert false;
    }
    var second: seq<nat>, both: seq<nat> := [j], [i, j];
    assert both[1..] == second;
    assert Disjoint(c, s, i + |s|, second);
    NoMoreThanCounted(c, s, 0, both);
  }

  lemma CountedOnceIsUnique(c: string, s: string)
    requires s != "" && Count(c, s, 0) == 1 && !Bordered(s)
    ensures UniqueMatch(c, s)
  {
    CutsAreCounted(c, s, 0);
    CutsAreDisjoint(c, s, 0);
    var k := Cuts(c, s, 0)[0];
    forall j: nat | MatchesAt(c, s, j) ensures j == k {
      if j < k {
        MatchPair(c, s, j, k);
      } else if k < j {
        MatchPair(c, s, k, j);
      }
    }
  }

  lemma BorderedOverlaps(s: string, b: nat)
    requires 0 < b < |s| && IsBorder(s, b)
    ensures Count(s + s[b..], s, 0) == 1 && !UniqueMatch(s + s[b..], s)
  {
    var c := s + s[b..];
    assert MatchesAt(c, s, 0);
    assert MatchesAt(c, s, |s| - b) by {
      assert c[|s| - b..] == s[|s| - b..] + s[b..] == s[..b] + s[b..] == s;
    }
    assert IndexOf(c, s, 0) == Some(0) && IndexOf(c, s, |s|) == None;
    assert SplitFrom(c, s, |s|) == [c[|s|..]];
  }

  /**
   * A count of one, which is all the single-replacement path checks, means that the string occurs at
   * one place only exactly for strings that cannot overlap themselves.
   */
  lemma OneMeansUniqueIffUnbordered(s: string)
    requires s != ""
    ensures CountOneMeansUnique(s) <==> !Bordered(s)
  {
    if Bordered(s) {
      var b :| 0 < b < |s| && IsBorder(s, b);
      BorderedOverlaps(s, b);
    } else {
      UnborderedIsUnique(s);
    }
  }

  lemma UnborderedIsUnique(s: string)
    requires s != "" && !Bordered(s)
    ensures CountOneMeansUnique(s)
  {
    forall c | Count(c, s, 0) == 1 ensures UniqueMatch(c, s) {
      CountedOnceIsUnique(c, s);
    }
  }

  // ---------------------------------------------------------------------------------------------
  // Replacing every match
  // ---------------------------------------------------------------------------------------------

  function ReplaceFrom(c: string, s: string, t: string, from: nat): string
    requires s != "" && from <= |c|
  {
    JoinWith(SplitFrom(c, s, from), t)
  }

  /** `c.split(s).join(t)`. */
  function ReplaceAll(c: string, s: string, t: string): string
    requires s != ""
  {
    ReplaceFrom(c, s, t, 0)
  }

  lemma JoinCons(part: string, rest: seq<string>, s: string)
    requires rest != []
    ensures JoinWith([part] + rest, s) == part + s + JoinWith(rest, s)
  {
    assert ([part] + rest)[1..] == rest;
  }

  lemma {:induction false} JoinSplitFrom(c: string, s: string, from: nat)
    requires s != "" && from <= |c|
    ensures JoinWith(SplitFrom(c, s, from), s) == c[from..]
    decreases |c| - from
  {
    var r := IndexOf(c, s, from);
    if r.Some? {
      var k := r.value;
      IndexIsFirst(c, s, from, r);
      JoinSplitFrom(c, s, k + |s|);
      JoinCons(c[from..k], SplitFrom(c, s, k + |s|), s);
      CutAround(c, s, from, k);
    }
  }

  lemma CutAround(c: string, s: string, from: nat, k: nat)
    requires from <= k && MatchesAt(c, s, k)
    ensures c[from..] == c[from..k] + s + c[k + |s|..]
  {
    assert c[from..] == c[from..k] + c[k..k + |s|] + c[k + |s|..];
  }

  lemma {:induction false} JoinLength(parts: seq<string>, s: string, t: string)
    requires parts != []
    ensures |JoinWith(parts, t)| == |JoinWith(parts, s)| + (|parts| - 1) * (|t| - |s|)
  {
    if |parts| > 1 {
      JoinLength(parts[1..], s, t);
      var n, d := |parts| - 1, |t| - |s|;
      assert n * d == (n - 1) * d + d;
    }
  }

  /** Replacing a string by itself changes nothing; each replacement changes the length by |t| - |s|. */
  lemma ReplaceAllMeans(c: string, s: string, t: string)
    requires s != ""
    ensures ReplaceAll(c, s, s) == c
    ensures |ReplaceAll(c, s, t)| == |c| + Count(c, s, 0) * (|t| - |s|)
  {
    JoinSplitFrom(c, s, 0);
    assert c[0..] == c;
    JoinLength(SplitFrom(c, s, 0), s, t);
  }

  predicate Free(parts: seq<string>, x: char) {
    forall i :: 0 <= i < |parts| ==> x !in parts[i]
  }

  lemma {:induction false} PartsAreFree(c: string, s: string, from: nat, x: char)
    requires s != "" && from <= |c| && x !in c
    ensures Free(SplitFrom(c, s, from), x)
    decreases |c| - from
  {
    match IndexOf(c, s, from)
    case None =>
    case Some(k) => PartsAreFree(c, s, k + |s|, x);
  }

  lemma MatchStarts(c: string, t: string, k: nat)
    ensures t != "" && MatchesAt(c, t, k) ==> c[k] == t[0]
  {
    if t != "" && MatchesAt(c, t, k) {
      assert c[k..k + |t|][0] == c[k];
    }
  }

  lemma IndexAfterPart(c: string, before: string, part: string, t: string, rest: string)
    requires t != "" && t[0] !in part && c == before + part + t + rest
    ensures IndexOf(c, t, |before|) == Some(|before| + |part|) && c[|before|..|before| + |part|] == part
  {
    var k := |before| + |part|;
    assert c[k..k + |t|] == t;
    forall j | |before| <= j < k ensures !MatchesAt(c, t, j) {
      assert c[j] == part[j - |before|];
      MatchStarts(c, t, j);
    }
    IndexIsFirst(c, t, |before|, Some(k));
  }

  lemma NoIndexInPart(c: string, before: string, part: string, t: string)
    requires t != "" && t[0] !in part && c == before + part
    ensures IndexOf(c, t, |before|) == None && c[|before|..] == part
  {
    forall j | |before| <= j <= |c| ensures !MatchesAt(c, t, j) {
      assert j < |c| ==> c[j] == part[j - |before|];
      MatchStarts(c, t, j);
    }
    IndexIsFirst(c, t, |before|, None);
  }

  lemma SplitPart(c: string, before: string, parts: seq<string>, t: string)
    requires t != "" && |parts| > 1 && t[0] !in parts[0] && c == before + JoinWith(parts, t)
    ensures var next := before + parts[0] + t;
            c == next + JoinWith(parts[1..], t) && SplitFrom(c, t, |before|) == [parts[0]] + SplitFrom(c, t, |next|)
  {
    var tail := JoinWith(parts[1..], t);
    assert c == before + parts[0] + t + tail;
    IndexAfterPart(c, before, parts[0], t, tail);
  }

  lemma {:induction false} SplitFromJoin(c: string, before: string, parts: seq<string>, t: string)
    requires t != "" && parts != [] && Free(parts, t[0]) && c == before + JoinWith(parts, t)
    ensures SplitFrom(c, t, |before|) == parts
    decreases |parts|
  {
    if |parts| == 1 {
      NoIndexInPart(c, before, parts[0], t);
    } else {
      SplitPart(c, before, parts, t);
      SplitFromJoin(c, before + parts[0] + t, parts[1..], t);
    }
  }

  /** Replacing back restores the text when the new string starts with a character the text lacks. */
  lemma ReplaceAllIsUndone(c: string, s: string, t: string)
    requires s != "" && t != "" && t[0] !in c
    ensures ReplaceAll(ReplaceAll(c, s, t), t, s) == c
    ensures Count(ReplaceAll(c, s, t), t, 0) == Count(c, s, 0)
  {
    PartsAreFree(c, s, 0, t[0]);
    assert ReplaceAll(c, s, t) == "" + ReplaceAll(c, s, t);
    SplitFromJoin(ReplaceAll(c, s, t), "", SplitFrom(c, s, 0), t);
    JoinSplitFrom(c, s, 0);
    assert c[0..] == c;
  }

  // ---------------------------------------------------------------------------------------------
  // Replacing the first match
  // ---------------------------------------------------------------------------------------------

  /** The characters that make a preceding `$` a pattern when nothing is captured. */
  predicate Escapes(x: char) {
    x == '$' || x == '&' || x == '`' || x == '\''
  }

  /** GetSubstitution of ECMA-262 for a replacement string without captures. */
  function Expand(t: string, matched: string, before: string, after: string): string {
    if t == "" then ""
    else if |t| >= 2 && t[0] == '$' && Escapes(t[1]) then
      (match t[1]
       case '$' => "$"
       case '&' => matched
       case '`' => before
       case _ => after) + Expand(t[2..], matched, before, after)
    else [t[0]] + Expand(t[1..], matched, before, after)
  }

  /** `c.replace(s, t)` for a string `s`. */
  function ReplaceFirst(c: string, s: string, t: string): string {
    match IndexOf(c, s, 0)
    case None => c
    case Some(k) => c[..k] + Expand(t, s, c[..k], c[k + |s|..]) + c[k + |s|..]
  }

  predicate Plain(t: string) {
    forall i :: 0 <= i < |t| - 1 && t[i] == '$' ==> !Escapes(t[i + 1])
  }

  lemma {:induction false} PlainIsKept(t: string, matched: string, before: string, after: string)
    requires Plain(t)
    ensures Expand(t, matched, before, after) == t
  {
    if t != "" {
      PlainTail(t);
      PlainIsKept(t[1..], matched, before, after);
      assert t == [t[0]] + t[1..];
    }
  }

  lemma PlainTail(t: string)
    requires t != ""
    ensures Plain(t) ==> Plain(t[1..])
    ensures !Plain(t) && Plain(t[1..]) ==> |t| >= 2 && t[0] == '$' && Escapes(t[1])
  {
    forall i | 1 <= i < |t| - 1 && Plain(t[1..]) && t[i] == '$' ensures !Escapes(t[i + 1]) {
      assert t[1..][i - 1] == t[i] && t[1..][i] == t[i + 1];
    }
  }

  /** Between nothing and nothing, a one-character match makes every pattern shrink. */
  lemma {:induction false} PatternsShrink(t: string, matched: string)
    requires |matched| == 1
    ensures |Expand(t, matched, "", "")| <= |t|
    ensures !Plain(t) ==> |Expand(t, matched, "", "")| < |t|
  {
    if |t| >= 2 && t[0] == '$' && Escapes(t[1]) {
      PatternsShrink(t[2..], matched);
    } else if t != "" {
      PlainTail(t);
      PatternsShrink(t[1..], matched);
    }
  }

  lemma SingleMatchReplaced(c: string, s: string, t: string)
    requires s != "" && Count(c, s, 0) == 1
    ensures IndexOf(c, s, 0).Some?
    ensures var k := IndexOf(c, s, 0).value; ReplaceAll(c, s, t) == c[..k] + t + c[k + |s|..]
  {
    assert SplitFrom(c, s, 0) != [c[0..]];
    var k := IndexOf(c, s, 0).value;
    var rest := SplitFrom(c, s, k + |s|);
    assert rest == [c[k + |s|..]];
    JoinCons(c[0..k], rest, t);
  }

  lemma PlainFirst(plain: string, x: char, rest: string, matched: string, before: string, after: string)
    requires plain != "" && Plain(plain) && plain[|plain| - 1] != '$'
    ensures Plain(plain[1..]) && (plain[1..] != "" ==> plain[1..][|plain[1..]| - 1] != '$')
    ensures Expand(plain + ['$', x] + rest, matched, before, after) ==
            [plain[0]] + Expand(plain[1..] + ['$', x] + rest, matched, before, after)
  {
    PlainTail(plain);
    var t := plain + ['$', x] + rest;
    assert t[1..] == plain[1..] + ['$', x] + rest;
    assert t[0] == plain[0] && (|plain| > 1 ==> t[1] == plain[1]);
  }

  lemma PatternFirst(x: char, rest: string, matched: string, before: string, after: string)
    requires Escapes(x)
    ensures Expand(['$', x] + rest, matched, before, after) ==
            (if x == '$' then "$" else if x == '&' then matched else if x == '`' then before else after)
            + Expand(rest, matched, before, after)
  {
    assert (['$', x] + rest)[2..] == rest;
  }

  /**
   * The first pattern of a new string becomes a dollar sign for `$$`, the match for `$&`, the text before it
   * for `` $` `` and the text after it for `$'`; what stands before the pattern is kept, and reading goes on
   * behind it.
   */
  lemma {:induction false} ExpandMeans(plain: string, rest: string, matched: string, before: string, after: string)
    requires Plain(plain) && (plain != "" ==> plain[|plain| - 1] != '$')
    ensures Expand(plain + "$$" + rest, matched, before, after)
         == plain + "$" + Expand(rest, matched, before, after)
    ensures Expand(plain + "$&" + rest, matched, before, after)
         == plain + matched + Expand(rest, matched, before, after)
    ensures Expand(plain + "$`" + rest, matched, before, after)
         == plain + before + Expand(rest, matched, before, after)
    ensures Expand(plain + "$'" + rest, matched, before, after)
         == plain + after + Expand(rest, matched, before, after)
  {
    PatternKept(plain, '$', rest, matched, before, after);
    PatternKept(plain, '&', rest, matched, before, after);
    PatternKept(plain, '`', rest, matched, before, after);
    PatternKept(plain, '\'', rest, matched, before, after);
  }

  lemma {:induction false} PatternKept(
      plain: string, x: char, rest: string, matched: string, before: string, after: string)
    requires Plain(plain) && (plain != "" ==> plain[|plain| - 1] != '$') && Escapes(x)
    ensures Expand(plain + ['$', x] + rest, matched, before, after) ==
            plain + (if x == '$' then "$" else if x == '&' then matched else if x == '`' then before else after)
            + Expand(rest, matched, before, after)
    decreases |plain|
  {
    if plain == "" {
      PatternFirst(x, rest, matched, before, after);
      assert plain + ['$', x] + rest == ['$', x] + rest;
    } else {
      PlainFirst(plain, x, rest, matched, before, after);
      PatternKept(plain[1..], x, rest, matched, before, after);
      assert plain == [plain[0]] + plain[1..];
    }
  }

  /** Replacing puts the new string for the first match from a place on, and goes on right behind it. */
  lemma FirstMatchReplaced(c: string, s: string, t: string, from: nat, k: nat)
    requires s != "" && from <= k && MatchesAt(c, s, k) && forall j :: from <= j < k ==> !MatchesAt(c, s, j)
    ensures ReplaceFrom(c, s, t, from) == c[from..k] + t + ReplaceFrom(c, s, t, k + |s|)
  {
    IndexIsFirst(c, s, from, Some(k));
    JoinCons(c[from..k], SplitFrom(c, s, k + |s|), t);
  }

  lemma NoMatchKept(c: string, s: string, t: string, from: nat)
    requires s != "" && from <= |c| && forall j: nat :: from <= j ==> !MatchesAt(c, s, j)
    ensures ReplaceFrom(c, s, t, from) == c[from..] && Count(c, s, from) == 0
  {
    IndexIsFirst(c, s, from, None);
  }

  /** The single replacement expands the new string at the first match, and keeps the rest. */
  lemma OnlyFirstReplaced(c: string, s: string, t: string, k: nat)
    requires MatchesAt(c, s, k) && forall j :: 0 <= j < k ==> !MatchesAt(c, s, j)
    ensures ReplaceFirst(c, s, t) == c[..k] + Expand(t, s, c[..k], c[k + |s|..]) + c[k + |s|..]
  {
    IndexIsFirst(c, s, 0, Some(k));
  }

  ghost predicate PathsAgree(t: string) {
    forall c, s :: s != "" && Count(c, s, 0) == 1 ==> ReplaceFirst(c, s, t) == ReplaceAll(c, s, t)
  }

  /**
   * Where both paths apply they write the same text, whatever the file and the old string, exactly
   * when the new string holds none of `$$`, `$&`, `` $` `` and `$'`.
   */
  lemma PathsAgreeIffPlain(t: string)
    ensures PathsAgree(t) <==> Plain(t)
  {
    if Plain(t) {
      forall c, s | s != "" && Count(c, s, 0) == 1 ensures ReplaceFirst(c, s, t) == ReplaceAll(c, s, t) {
        SingleMatchReplaced(c, s, t);
        var k := IndexOf(c, s, 0).value;
        PlainIsKept(t, s, c[..k], c[k + |s|..]);
      }
    } else {
      var s := "x";
      assert MatchesAt(s, s, 0) && IndexOf(s, s, 0) == Some(0) && Count(s, s, 0) == 1;
      SingleMatchReplaced(s, s, t);
      PatternsShrink(t, s);
      assert s[..0] == "" && s[1..] == "";
    }
  }

  // ---------------------------------------------------------------------------------------------
  // Editing a file
  // ---------------------------------------------------------------------------------------------

  datatype EditError =
    | MissingPath | MissingOldString | ReadFailed | NotFound | Ambiguous(occurrences: nat) | WriteFailed

  datatype EditResult = Edited(replacements: nat) | Failed(error: EditError)

  /** A file: its text, when it can be read, and whether it can be written. */
  class File {
    var text: Option<string>
    const writable: bool

    constructor (text: Option<string>, writable: bool)
      ensures this.text == text && this.writable == writable
    {
      this.text := text;
      this.writable := writable;
    }
  }

  /** Replaces the first match, or all of them; refused edits, in this order, leave the file as it was. */
  method EditFile(path: string, file: File, oldString: Option<string>, newString: Option<string>,
                  replaceAll: Option<bool>)
    returns (r: EditResult)
    modifies file`text
    ensures r.Failed? ==> file.text == old(file.text)
    ensures var text, s, all := old(file.text), oldString, replaceAll == Some(true);
            if path == "" then r == Failed(MissingPath)
            else if s.None? || s.value == "" then r == Failed(MissingOldString)
            else if text.None? then r == Failed(ReadFailed)
            else if Count(text.value, s.value, 0) == 0 then r == Failed(NotFound)
            else if Count(text.value, s.value, 0) > 1 && !all then r == Failed(Ambiguous(Count(text.value, s.value, 0)))
            else if !file.writable then r == Failed(WriteFailed)
            else
              var t := if newString.Some? then newString.value else "";
              && r == Edited(Count(text.value, s.value, 0))
              && file.text == Some(if all then ReplaceAll(text.value, s.value, t)
                                   else ReplaceFirst(text.value, s.value, t))
  {
    var s, t, all := oldString.GetOr(""), newString.GetOr(""), replaceAll.GetOr(false);
    if path == "" {
      return Failed(MissingPath);
    }
    if s == "" {
      return Failed(MissingOldString);
    }
    if file.text.None? {
      return Failed(ReadFailed);
    }
    var content := file.text.value;
    var occurrences := CountOccurrences(content, s);
    if occurrences == 0 {
      return Failed(NotFound);
    }
    if occurrences > 1 && !all {
      return Failed(Ambiguous(occurrences));
    }
    var newContent, replacements;
    if all {
      newContent := JoinWith(SplitFrom(content, s, 0), t);
      replacements := occurrences;
    } else {
      newContent := ReplaceFirst(content, s, t);
      replacements := 1;
    }
    if !file.writable {
      return Failed(WriteFailed);
    }
    file.text := Some(newContent);
    return Edited(replacements);
  }
}
