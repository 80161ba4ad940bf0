/** Options and the JavaScript string operations the modelled files rely on. */
module Text {

  datatype Option<+T> = None | Some(value: T) {
    function GetOr(default: T): T {
      match this
      case Some(v) => v
      case None => default
    }
  }

  /** WhiteSpace and LineTerminator of ECMA-262: what `trim` removes. */
  predicate IsSpace(c: char) {
    var n := c as int;
    || 9 <= n <= 13 || n == 32 || n == 0xA0 || n == 0x1680 || 0x2000 <= n <= 0x200A
    || n == 0x2028 || n == 0x2029 || n == 0x202F || n == 0x205F || n == 0x3000 || n == 0xFEFF
  }

  function TrimStart(s: string): string {
    if s != "" && IsSpace(s[0]) then TrimStart(s[1..]) else s
  }

  function TrimEnd(s: string): string {
    if s != "" && IsSpace(s[|s| - 1]) then TrimEnd(s[..|s| - 1]) else s
  }

  function Trim(s: string): string {
    TrimEnd(TrimStart(s))
  }

  predicate AllSpaces(s: string) {
    forall i :: 0 <= i < |s| ==> IsSpace(s[i])
  }

  lemma {:induction false} TrimStartMeans(s: string) returns (left: string)
    ensures s == left + TrimStart(s) && AllSpaces(left)
    ensures TrimStart(s) != "" ==> !IsSpace(TrimStart(s)[0])
  {
    left := "";
    if s != "" && IsSpace(s[0]) {
      left := TrimStartMeans(s[1..]);
      left := [s[0]] + left;
    }
  }

  lemma {:induction false} TrimEndMeans(s: string) returns (right: string)
    ensures s == TrimEnd(s) + right && AllSpaces(right)
    ensures TrimEnd(s) != "" ==> !IsSpace(TrimEnd(s)[|TrimEnd(s)| - 1])
  {
    right := "";
    if s != "" && IsSpace(s[|s| - 1]) {
      right := TrimEndMeans(s[..|s| - 1]);
      right := right + [s[|s| - 1]];
    }
  }

  /** Trimming takes the spaces off both ends and nothing else. */
  lemma TrimMeans(s: string) returns (left: string, right: string)
    ensures s == left + Trim(s) + right && AllSpaces(left) && AllSpaces(right)
    ensures Trim(s) != "" ==> !IsSpace(Trim(s)[0]) && !IsSpace(Trim(s)[|Trim(s)| - 1])
  {
    left := TrimStartMeans(s);
    right := TrimEndMeans(TrimStart(s));
    assert TrimStart(s) == Trim(s) + right;
    assert Trim(s) != "" ==> Trim(s)[0] == TrimStart(s)[0];
  }

  /** Nothing is left exactly of a text of spaces. */
  lemma TrimsToNothing(s: string)
    ensures Trim(s) == "" <==> AllSpaces(s)
  {
    var left, right := TrimMeans(s);
    var at := |left|;
    if Trim(s) != "" {
      assert s[at] == Trim(s)[0];
    }
  }

  /** `s.split(sep)` for a one-character separator. */
  function Split(s: string, sep: char): (parts: seq<string>)
    ensures |parts| >= 1
  {
    if s == "" then [""]
    else
      var rest := Split(s[1..], sep);
      if s[0] == sep then [""] + rest else [[s[0]] + rest[0]] + rest[1..]
  }

  lemma {:induction false} PartsHoldNoSeparator(s: string, sep: char)
    ensures forall i :: 0 <= i < |Split(s, sep)| ==> sep !in Split(s, sep)[i]
  {
    if s != "" {
      PartsHoldNoSeparator(s[1..], sep);
    }
  }

  /** `parts.join(sep)` for a one-character separator. */
  function Join(parts: seq<string>, sep: char): string {
    if parts == [] then ""
    else if |parts| == 1 then parts[0]
    else parts[0] + [sep] + Join(parts[1..], sep)
  }

  /** What one more character in front does to a split. */
  function Prepend(c: char, parts: seq<string>, sep: char): seq<string>
    requires parts != []
  {
    if c == sep then [""] + parts else [[c] + parts[0]] + parts[1..]
  }

  lemma SplitCons(c: char, s: string, sep: char)
    ensures Split([c] + s, sep) == Prepend(c, Split(s, sep), sep)
  {
    assert ([c] + s)[1..] == s;
  }

  predicate Resumes(head: seq<string>, b: string, all: seq<string>, sep: char) {
    head != [] && all == head[..|head| - 1] + Split(head[|head| - 1] + b, sep)
  }

  lemma PrependLetter(c: char, open: string, b: string, all: seq<string>, sep: char)
    requires c != sep && all == Split(open + b, sep)
    ensures Prepend(c, all, sep) == Split([c] + open + b, sep)
  {
    assert [c] + open + b == [c] + (open + b);
    SplitCons(c, open + b, sep);
  }

  lemma PrependInFront(c: char, front: seq<string>, open: string, rest: seq<string>, sep: char)
    requires rest != [] && (c == sep || front != [])
    ensures var before := if c == sep then [""] + front else [[c] + front[0]] + front[1..];
            Prepend(c, front + [open], sep) == before + [open] && Prepend(c, front + rest, sep) == before + rest
  {
    if c != sep {
      assert (front + [open])[1..] == front[1..] + [open] && (front + rest)[1..] == front[1..] + rest;
    }
  }

  lemma PrependResumes(c: char, head: seq<string>, b: string, all: seq<string>, sep: char)
    requires Resumes(head, b, all, sep)
    ensures all != [] && Resumes(Prepend(c, head, sep), b, Prepend(c, all, sep), sep)
  {
    var open := head[|head| - 1];
    if c != sep && |head| == 1 {
      PrependLetter(c, open, b, all, sep);
    } else {
      PrependInFront(c, head[..|head| - 1], open, Split(open + b, sep), sep);
      assert head == head[..|head| - 1] + [open];
    }
  }

  lemma ResumeOneMore(c: char, a: string, b: string, sep: char)
    requires Resumes(Split(a, sep), b, Split(a + b, sep), sep)
    ensures Resumes(Split([c] + a, sep), b, Split([c] + (a + b), sep), sep)
  {
    PrependResumes(c, Split(a, sep), b, Split(a + b, sep), sep);
    SplitCons(c, a, sep);
    SplitCons(c, a + b, sep);
  }

  /** Splitting can stop anywhere and resume with the last, still open, part. */
  lemma {:induction false} SplitResumes(a: string, b: string, sep: char)
    ensures Resumes(Split(a, sep), b, Split(a + b, sep), sep)
  {
    if a == "" {
      assert a + b == b && "" + b == b;
    } else {
      SplitResumes(a[1..], b, sep);
      ResumeOneMore(a[0], a[1..], b, sep);
      assert a + b == [a[0]] + (a[1..] + b) && a == [a[0]] + a[1..];
    }
  }

  /** Splitting undoes joining when no part holds the separator. */
  lemma {:induction false} SplitJoin(parts: seq<string>, sep: char)
    requires parts != []
    requires forall i :: 0 <= i < |parts| ==> sep !in parts[i]
    ensures Split(Join(parts, sep), sep) == parts
  {
    SplitPart(parts[0], sep);
    if |parts| > 1 {
      var rest := parts[1..];
      SplitJoin(rest, sep);
      var tail := [sep] + Join(rest, sep);
      assert Join(parts, sep) == parts[0] + tail;
      SplitResumes(parts[0], tail, sep);
      SplitAtSeparator(parts[0], Join(rest, sep), sep);
    }
  }

  /** Joining undoes splitting. */
  lemma {:induction false} JoinSplit(s: string, sep: char)
    ensures Join(Split(s, sep), sep) == s
  {
    if s != "" {
      var rest := Split(s[1..], sep);
      JoinSplit(s[1..], sep);
      assert [s[0]] + s[1..] == s;
      if s[0] == sep {
        assert Split(s, sep)[1..] == rest;
        assert "" + [sep] + Join(rest, sep) == [sep] + Join(rest, sep);
      } else if |rest| > 1 {
        var parts := Split(s, sep);
        assert parts[1..] == rest[1..];
        assert Join(parts, sep) == [s[0]] + (rest[0] + [sep] + Join(rest[1..], sep));
      }
    }
  }

  lemma {:induction false} SplitPart(part: string, sep: char)
    requires sep !in part
    ensures Split(part, sep) == [part]
  {
    if part != "" {
      SplitPart(part[1..], sep);
      assert [part[0]] + part[1..] == part;
    }
  }

  lemma {:induction false} SplitAtSeparator(part: string, rest: string, sep: char)
    requires sep !in part
    ensures Split(part + [sep] + rest, sep) == [part] + Split(rest, sep)
    ensures Split(part + ([sep] + rest), sep) == [part] + Split(rest, sep)
  {
    assert part + ([sep] + rest) == part + [sep] + rest;
    if part == "" {
      assert (part + [sep] + rest)[1..] == rest;
    } else {
      SplitAtSeparator(part[1..], rest, sep);
      assert (part + [sep] + rest)[1..] == part[1..] + [sep] + rest;
      assert [part[0]] + part[1..] == part;
    }
  }
}
