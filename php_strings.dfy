/**
 * The PHP string built-ins the plugin relies on, on byte-sized ASCII
 * characters: `strtolower`, `ucwords`, `ucfirst`, `trim`, `str_replace` and
 * `preg_replace('/\s+/', ' ', ...)`.  Case conversion touches only `a`-`z`
 * and `A`-`Z`, as PHP 8's locale-independent functions do.
 */
module PhpStrings {

  predicate IsLower(c: char) { 'a' <= c <= 'z' }

  predicate IsUpper(c: char) { 'A' <= c <= 'Z' }

  function ToUpperChar(c: char): char {
    if IsLower(c) then (c as int - 32) as char else c
  }

  function ToLowerChar(c: char): char {
    if IsUpper(c) then (c as int + 32) as char else c
  }

  /** `strtolower` */
  function StrToLower(s: string): (r: string)
    ensures |r| == |s|
    ensures forall i :: 0 <= i < |r| ==> !IsUpper(r[i])
  {
    seq(|s|, i requires 0 <= i < |s| => ToLowerChar(s[i]))
  }

  /** The word delimiters `ucwords` uses by default: space, tab, CR, LF, form feed, vertical tab. */
  predicate IsWordDelimiter(c: char) {
    c == ' ' || c == '\t' || c == '\r' || c == '\n' || c == '\U{000C}' || c == '\U{000B}'
  }

  /** Position `i` of `s` starts a word in the sense of `ucwords`. */
  predicate StartsWord(s: string, i: int)
    requires 0 <= i < |s|
  {
    i == 0 || IsWordDelimiter(s[i - 1])
  }

  /** `ucwords`: upper-case the first character of the string and every character after a delimiter. */
  function UcWords(s: string): (r: string)
    ensures |r| == |s|
  {
    seq(|s|, i requires 0 <= i < |s| => if StartsWord(s, i) then ToUpperChar(s[i]) else s[i])
  }

  /** Case conversion leaves whitespace and word delimiters alone. */
  lemma CaseKeepsSpaces(c: char)
    ensures IsPcreSpace(ToUpperChar(c)) == IsPcreSpace(c) && IsPcreSpace(ToLowerChar(c)) == IsPcreSpace(c)
    ensures IsWordDelimiter(ToUpperChar(c)) == IsWordDelimiter(c)
    ensures ToLowerChar(ToUpperChar(c)) == ToLowerChar(c)
    ensures !IsLower(ToUpperChar(c))
    ensures !IsUpper(c) ==> !IsUpper(ToUpperChar(c)) || IsLower(c)
  {
  }

  /**
   * `ucwords` changes letters only in case, keeps the word structure, leaves
   * no word starting with a lower-case letter and, on a lower-case input,
   * upper-cases nothing inside a word.
   */
  lemma UcWordsShape(s: string)
    ensures forall i :: 0 <= i < |s| ==> ToLowerChar(UcWords(s)[i]) == ToLowerChar(s[i])
    ensures forall i :: 0 <= i < |s| ==> IsPcreSpace(UcWords(s)[i]) == IsPcreSpace(s[i])
    ensures forall i :: 0 <= i < |s| ==> StartsWord(UcWords(s), i) == StartsWord(s, i)
    ensures forall i :: 0 <= i < |s| && StartsWord(s, i) ==> !IsLower(UcWords(s)[i])
    ensures forall i :: 0 <= i < |s| && !StartsWord(s, i) ==> UcWords(s)[i] == s[i]
    ensures (forall i :: 0 <= i < |s| ==> !IsUpper(s[i])) ==>
              forall i :: 0 <= i < |s| && !StartsWord(s, i) ==> !IsUpper(UcWords(s)[i])
  {
    var w := UcWords(s);
    forall i | 0 <= i < |s|
      ensures ToLowerChar(w[i]) == ToLowerChar(s[i]) && IsPcreSpace(w[i]) == IsPcreSpace(s[i])
      ensures IsWordDelimiter(w[i]) == IsWordDelimiter(s[i])
    {
      CaseKeepsSpaces(s[i]);
    }
  }

  /** `strtolower` changes letters only in case and keeps whitespace where it was. */
  lemma StrToLowerShape(s: string)
    ensures forall i :: 0 <= i < |s| ==> ToLowerChar(StrToLower(s)[i]) == ToLowerChar(s[i])
    ensures forall i :: 0 <= i < |s| ==> IsPcreSpace(StrToLower(s)[i]) == IsPcreSpace(s[i])
  {
    forall i | 0 <= i < |s|
      ensures ToLowerChar(StrToLower(s)[i]) == ToLowerChar(s[i])
      ensures IsPcreSpace(StrToLower(s)[i]) == IsPcreSpace(s[i])
    {
      CaseKeepsSpaces(s[i]);
    }
  }

  /** `ucfirst` */
  function UcFirst(s: string): (r: string)
    ensures |r| == |s|
  {
    if s == [] then [] else [ToUpperChar(s[0])] + s[1..]
  }

  /** `ucfirst` of a `ucwords` result changes nothing: its first character is already upper case. */
  lemma UcFirstOfUcWords(s: string)
    ensures UcFirst(UcWords(s)) == UcWords(s)
  {
    if s != [] {
      var w := UcWords(s);
      assert w[0] == ToUpperChar(s[0]);
      assert ToUpperChar(w[0]) == w[0];
      assert [w[0]] + w[1..] == w;
    }
  }

  /** The characters `\s` matches in a PCRE pattern: space, tab, LF, VT, FF, CR. */
  predicate IsPcreSpace(c: char) {
    c == ' ' || c == '\t' || c == '\n' || c == '\U{000B}' || c == '\U{000C}' || c == '\r'
  }

  /** The non-whitespace characters of `s`, in order. */
  function NonSpace(s: string): string {
    if s == [] then []
    else if IsPcreSpace(s[0]) then NonSpace(s[1..])
    else [s[0]] + NonSpace(s[1..])
  }

  /** `s` without its leading run of whitespace. */
  function DropSpaces(s: string): (r: string)
    ensures |r| <= |s| && r == s[|s| - |r|..]
    ensures forall i :: 0 <= i < |s| - |r| ==> IsPcreSpace(s[i])
    ensures r == [] || !IsPcreSpace(r[0])
  {
    if s != [] && IsPcreSpace(s[0]) then DropSpaces(s[1..]) else s
  }

  /** Dropping leading whitespace loses no other character. */
  lemma {:induction false} DropSpacesNonSpace(s: string)
    ensures NonSpace(DropSpaces(s)) == NonSpace(s)
    decreases |s|
  {
    if s != [] && IsPcreSpace(s[0]) {
      DropSpacesNonSpace(s[1..]);
    }
  }

  /**
   * `preg_replace('/\s+/', ' ', s)`: every maximal run of whitespace becomes
   * one space.  Nothing is trimmed: a leading or trailing run also becomes a
   * single space.
   */
  function CollapseWhitespace(s: string): (r: string)
    ensures |r| <= |s|
    ensures s != [] ==> r != [] && r[0] == (if IsPcreSpace(s[0]) then ' ' else s[0])
    decreases |s|
  {
    if s == [] then []
    else if IsPcreSpace(s[0]) then " " + CollapseWhitespace(DropSpaces(s[1..]))
    else [s[0]] + CollapseWhitespace(s[1..])
  }

  /** Collapsing whitespace keeps every other character, in order. */
  lemma {:induction false} CollapseNonSpace(s: string)
    ensures NonSpace(CollapseWhitespace(s)) == NonSpace(s)
    decreases |s|
  {
    if s != [] {
      if IsPcreSpace(s[0]) {
        var t := DropSpaces(s[1..]);
        CollapseNonSpace(t);
        DropSpacesNonSpace(s[1..]);
        assert (" " + CollapseWhitespace(t))[1..] == CollapseWhitespace(t);
      } else {
        CollapseNonSpace(s[1..]);
        assert ([s[0]] + CollapseWhitespace(s[1..]))[1..] == CollapseWhitespace(s[1..]);
      }
    }
  }

  /** The result of collapsing holds whitespace only as single spaces. */
  lemma {:induction false} CollapseIsCollapsed(s: string)
    ensures IsCollapsed(CollapseWhitespace(s))
    decreases |s|
  {
    if s != [] {
      var t := if IsPcreSpace(s[0]) then DropSpaces(s[1..]) else s[1..];
      CollapseIsCollapsed(t);
      var c := CollapseWhitespace(t);
      var r := CollapseWhitespace(s);
      assert r[1..] == c;
      forall i | 0 <= i < |r| && IsPcreSpace(r[i]) ensures r[i] == ' ' {
        if i > 0 { assert r[i] == c[i - 1]; }
      }
      forall i | 0 <= i < |r| - 1 ensures !(IsPcreSpace(r[i]) && IsPcreSpace(r[i + 1])) {
        if i > 0 { assert r[i] == c[i - 1] && r[i + 1] == c[i]; }
      }
    }
  }

  /** A trailing run of whitespace is not trimmed: it ends the result as one space. */
  lemma {:induction false} CollapseLast(s: string)
    requires s != []
    ensures var r := CollapseWhitespace(s);
            r[|r| - 1] == (if IsPcreSpace(s[|s| - 1]) then ' ' else s[|s| - 1])
    decreases |s|
  {
    var t := if IsPcreSpace(s[0]) then DropSpaces(s[1..]) else s[1..];
    var c := CollapseWhitespace(t);
    var r := CollapseWhitespace(s);
    assert r[1..] == c;
    if t != [] {
      CollapseLast(t);
      assert r[|r| - 1] == c[|c| - 1];
      assert t[|t| - 1] == s[|s| - 1];
    } else {
      assert |r| == 1;
      if IsPcreSpace(s[0]) && |s| > 1 {
        assert IsPcreSpace(s[1..][|s| - 2]);
      }
    }
  }

  /** A string already in collapsed form: whitespace only as single spaces. */
  predicate IsCollapsed(s: string) {
    && (forall i :: 0 <= i < |s| && IsPcreSpace(s[i]) ==> s[i] == ' ')
    && (forall i :: 0 <= i < |s| - 1 ==> !(IsPcreSpace(s[i]) && IsPcreSpace(s[i + 1])))
  }

  /** Two words without whitespace joined by one space are in collapsed form. */
  lemma WordsCollapsed(a: string, b: string)
    requires forall i :: 0 <= i < |a| ==> !IsPcreSpace(a[i])
    requires forall i :: 0 <= i < |b| ==> !IsPcreSpace(b[i])
    ensures IsCollapsed(a + " " + b)
  {
    var s := a + " " + b;
    forall i | 0 <= i < |s| && i != |a| ensures !IsPcreSpace(s[i]) {
      if i < |a| { assert s[i] == a[i]; } else { assert s[i] == b[i - |a| - 1]; }
    }
    assert s[|a|] == ' ';
  }

  /** Collapsing a string that is already collapsed leaves it as it is. */
  lemma {:induction false} CollapseCollapsed(s: string)
    requires IsCollapsed(s)
    ensures CollapseWhitespace(s) == s
    decreases |s|
  {
    if s != [] {
      assert IsCollapsed(s[1..]);
      if IsPcreSpace(s[0]) {
        assert DropSpaces(s[1..]) == s[1..];
        CollapseCollapsed(s[1..]);
        assert " " + s[1..] == s;
      } else {
        CollapseCollapsed(s[1..]);
        assert [s[0]] + s[1..] == s;
      }
    }
  }

  /** A run made only of whitespace is dropped whole, whatever follows it. */
  lemma {:induction false} DropSpacesRun(w: string, b: string)
    requires forall i :: 0 <= i < |w| ==> IsPcreSpace(w[i])
    requires b == [] || !IsPcreSpace(b[0])
    ensures DropSpaces(w + b) == b
    decreases |w|
  {
    if w == [] {
      assert w + b == b;
    } else {
      assert (w + b)[1..] == w[1..] + b;
      DropSpacesRun(w[1..], b);
    }
  }

  /** Dropping leading whitespace stops inside `x` when `x` ends in a non-space. */
  lemma {:induction false} DropSpacesPrefix(x: string, y: string)
    requires x != [] && !IsPcreSpace(x[|x| - 1])
    ensures DropSpaces(x + y) == DropSpaces(x) + y
    decreases |x|
  {
    if IsPcreSpace(x[0]) {
      assert |x| > 1;
      assert (x + y)[1..] == x[1..] + y;
      DropSpacesPrefix(x[1..], y);
    }
  }

  /**
   * A whitespace run between two words becomes exactly one space, and the
   * text on either side is collapsed on its own.
   */
  lemma CollapseInteriorRun(a: string, w: string, b: string)
    requires w != [] && forall i :: 0 <= i < |w| ==> IsPcreSpace(w[i])
    requires a == [] || !IsPcreSpace(a[|a| - 1])
    requires b == [] || !IsPcreSpace(b[0])
    ensures CollapseWhitespace(a + w + b) == CollapseWhitespace(a) + " " + CollapseWhitespace(b)
  {
    DropSpacesRun(w[1..], b);
    CollapseSpaceFirst(w, b);
    CollapseConcat(a, w + b);
    Regroup(a, w, b);
    Regroup(CollapseWhitespace(a), " ", CollapseWhitespace(b));
  }

  /** Text that ends in a non-space is collapsed apart from whatever follows it. */
  lemma {:induction false} CollapseConcat(a: string, v: string)
    requires a == [] || !IsPcreSpace(a[|a| - 1])
    ensures CollapseWhitespace(a + v) == CollapseWhitespace(a) + CollapseWhitespace(v)
    decreases |a|
  {
    if a == [] {
      assert a + v == v;
    } else if IsPcreSpace(a[0]) {
      var t := DropSpaces(a[1..]);
      DropSpacesPrefix(a[1..], v);
      assert t != [] && t[|t| - 1] == a[|a| - 1];
      CollapseConcat(t, v);
      CollapseSpaceFirst(a, v);
      Regroup(" ", CollapseWhitespace(t), CollapseWhitespace(v));
    } else {
      if |a| > 1 {
        assert a[1..][|a| - 2] == a[|a| - 1];
      }
      CollapseConcat(a[1..], v);
      CollapseWordFirst(a, v);
      Regroup([a[0]], CollapseWhitespace(a[1..]), CollapseWhitespace(v));
    }
  }

  /** `CollapseWhitespace` of a concatenation whose first part starts with whitespace. */
  lemma CollapseSpaceFirst(a: string, v: string)
    requires a != [] && IsPcreSpace(a[0])
    ensures CollapseWhitespace(a + v) == " " + CollapseWhitespace(DropSpaces(a[1..] + v))
  {
    var s := a + v;
    assert s[0] == a[0];
    assert s[1..] == a[1..] + v;
  }

  /** `CollapseWhitespace` of a concatenation whose first part starts with a non-space. */
  lemma CollapseWordFirst(a: string, v: string)
    requires a != [] && !IsPcreSpace(a[0])
    ensures CollapseWhitespace(a + v) == [a[0]] + CollapseWhitespace(a[1..] + v)
  {
    var s := a + v;
    assert s[0] == a[0];
    assert s[1..] == a[1..] + v;
  }

  /** Concatenation regrouped. */
  lemma Regroup(x: string, y: string, z: string)
    ensures x + (y + z) == x + y + z
  {
  }

  /** `strtolower` of a string without upper-case letters is the string itself. */
  lemma StrToLowerOfLower(s: string)
    requires forall i :: 0 <= i < |s| ==> !IsUpper(s[i])
    ensures StrToLower(s) == s
  {
  }

  /** `str_replace($from, $to, $s)` for one-character strings. */
  function ReplaceChar(s: string, from: char, to: char): (r: string)
    ensures |r| == |s|
  {
    seq(|s|, i requires 0 <= i < |s| => if s[i] == from then to else s[i])
  }

  /** `str_replace(array(...), '', $s)`: every character of `cs` removed. */
  function RemoveChars(s: string, cs: set<char>): (r: string)
    ensures |r| <= |s|
    ensures forall i :: 0 <= i < |r| ==> r[i] !in cs
  {
    if s == [] then []
    else if s[0] in cs then RemoveChars(s[1..], cs)
    else [s[0]] + RemoveChars(s[1..], cs)
  }

  /** Every character that is not removed stays, as often as `s` has it. */
  lemma {:induction false} RemoveCharsCounts(s: string, cs: set<char>)
    ensures forall c :: c !in cs ==> multiset(RemoveChars(s, cs))[c] == multiset(s)[c]
    decreases |s|
  {
    if s != [] {
      RemoveCharsCounts(s[1..], cs);
      assert s == [s[0]] + s[1..];
    }
  }

  /** A character that is not removed is kept. */
  lemma RemoveCharsKeeps(c: char, cs: set<char>)
    requires c !in cs
    ensures RemoveChars([c], cs) == [c]
  {
    assert [c][1..] == [];
  }

  /** Removing characters adds none: every character left comes from `s`. */
  lemma {:induction false} RemoveCharsFrom(s: string, cs: set<char>)
    ensures forall i :: 0 <= i < |RemoveChars(s, cs)| ==> RemoveChars(s, cs)[i] in s
    decreases |s|
  {
    if s != [] {
      RemoveCharsFrom(s[1..], cs);
      var t := RemoveChars(s[1..], cs);
      forall i | 0 <= i < |t| ensures t[i] in s {
        var k :| 0 <= k < |s[1..]| && s[1..][k] == t[i];
        assert s[k + 1] == t[i];
      }
    }
  }

  /** Removing characters distributes over concatenation. */
  lemma {:induction false} RemoveCharsConcat(a: string, b: string, cs: set<char>)
    ensures RemoveChars(a + b, cs) == RemoveChars(a, cs) + RemoveChars(b, cs)
    decreases |a|
  {
    if a != [] {
      RemoveCharsHead(a, b, cs);
      RemoveCharsConcat(a[1..], b, cs);
      if a[0] !in cs {
        Regroup([a[0]], RemoveChars(a[1..], cs), RemoveChars(b, cs));
      }
    } else {
      assert a + b == b;
    }
  }

  /** `RemoveChars` of a concatenation looks at the first part's head first. */
  lemma RemoveCharsHead(a: string, b: string, cs: set<char>)
    requires a != []
    ensures RemoveChars(a + b, cs) ==
            if a[0] in cs then RemoveChars(a[1..] + b, cs) else [a[0]] + RemoveChars(a[1..] + b, cs)
  {
    var s := a + b;
    assert s[0] == a[0];
    assert s[1..] == a[1..] + b;
  }

  /** A string none of whose characters is removed is left as it is. */
  lemma {:induction false} RemoveCharsNone(s: string, cs: set<char>)
    requires forall i :: 0 <= i < |s| ==> s[i] !in cs
    ensures RemoveChars(s, cs) == s
    decreases |s|
  {
    if s != [] {
      RemoveCharsNone(s[1..], cs);
      assert [s[0]] + s[1..] == s;
    }
  }

  /** The characters `trim` strips by default: space, tab, LF, CR, NUL, VT. */
  predicate IsTrimmable(c: char) {
    c == ' ' || c == '\t' || c == '\n' || c == '\r' || c == '\0' || c == '\U{000B}'
  }

  /** The number of trimmable characters `s` starts with. */
  function TrimStart(s: string): (n: nat)
    ensures n <= |s|
    ensures forall k :: 0 <= k < n ==> IsTrimmable(s[k])
    ensures n == |s| || !IsTrimmable(s[n])
  {
    if s != [] && IsTrimmable(s[0]) then 1 + TrimStart(s[1..]) else 0
  }

  /** The length of `s` once its trailing trimmable characters are dropped. */
  function TrimEnd(s: string): (n: nat)
    ensures n <= |s|
    ensures forall k :: n <= k < |s| ==> IsTrimmable(s[k])
    ensures n == 0 || !IsTrimmable(s[n - 1])
  {
    if s != [] && IsTrimmable(s[|s| - 1]) then TrimEnd(s[..|s| - 1]) else |s|
  }

  /** `r` is `s` from position `i` on, with only trimmable characters left out before and after. */
  predicate StripsTo(s: string, r: string, i: int) {
    && 0 <= i && i + |r| <= |s| && r == s[i..i + |r|]
    && (forall k :: 0 <= k < i ==> IsTrimmable(s[k]))
    && (forall k :: i + |r| <= k < |s| ==> IsTrimmable(s[k]))
  }

  /**
   * `trim`: the leading and the trailing trimmable characters removed and
   * nothing else; the result neither starts nor ends with one.
   */
  function Trim(s: string): (r: string)
    ensures StripsTo(s, r, TrimStart(s))
    ensures r == [] || (!IsTrimmable(r[0]) && !IsTrimmable(r[|r| - 1]))
  {
    var i := TrimStart(s);
    var j := TrimEnd(s[i..]);
    assert forall k :: i + j <= k < |s| ==> s[k] == s[i..][k - i];
    s[i..i + j]
  }

  /** `trim` of a string that starts and ends with untrimmable characters. */
  lemma TrimUntrimmable(s: string)
    requires s != [] && !IsTrimmable(s[0]) && !IsTrimmable(s[|s| - 1])
    ensures Trim(s) == s
  {
    assert TrimStart(s) == 0;
    assert s[0..] == s;
  }

  /** `trim` strips only trimmable characters: every other character stays, as often as `s` has it. */
  lemma TrimKeepsCounts(s: string)
    ensures forall c :: !IsTrimmable(c) ==> multiset(Trim(s))[c] == multiset(s)[c]
  {
    var r := Trim(s);
    var i := TrimStart(s);
    var pre, post := s[..i], s[i + |r|..];
    assert s == pre + r + post;
    forall c | !IsTrimmable(c) ensures multiset(r)[c] == multiset(s)[c] {
      assert c !in pre && c !in post;
    }
  }

  /** `pat` occurs in `s` starting at position `i`. */
  predicate OccursAt(s: string, pat: string, i: nat) {
    i <= |s| && pat <= s[i..]
  }

  /** `pat` occurs somewhere in `s` (`strpos($s, $pat) !== false`). */
  predicate Contains(s: string, pat: string) {
    exists i :: 0 <= i <= |s| && OccursAt(s, pat, i)
  }

  /** `str_replace($pat, $rep, $s)`: occurrences found left to right, without overlap. */
  function ReplaceAll(s: string, pat: string, rep: string): string
    requires pat != []
    decreases |s|
  {
    if |s| < |pat| then s
    else if pat <= s then rep + ReplaceAll(s[|pat|..], pat, rep)
    else [s[0]] + ReplaceAll(s[1..], pat, rep)
  }

  /**
   * The first occurrence of the pattern, at `i`, is replaced; the text before
   * it is kept and the rest is searched again after the occurrence.
   */
  lemma {:induction false} ReplaceAllFirst(s: string, pat: string, rep: string, i: nat)
    requires pat != [] && i + |pat| <= |s| && OccursAt(s, pat, i)
    requires forall j :: 0 <= j < i ==> !OccursAt(s, pat, j)
    ensures ReplaceAll(s, pat, rep) == s[..i] + rep + ReplaceAll(s[i + |pat|..], pat, rep)
    decreases i
  {
    if i == 0 {
      assert s[0..] == s && s[..0] == [];
    } else {
      ReplaceAllShift(s, pat, i);
      assert !OccursAt(s, pat, 0);
      var t := s[1..];
      ReplaceAllFirst(t, pat, rep, i - 1);
      ReplaceAllFirstStep(s, t, pat, rep, i);
    }
  }

  /**
   * When `strpos` finds the pattern there is a first occurrence, so
   * `ReplaceAllFirst` applies to every string the `str_replace` branch sees.
   */
  lemma FirstOccurrence(s: string, pat: string) returns (i: nat)
    requires pat != [] && Contains(s, pat)
    ensures i + |pat| <= |s| && OccursAt(s, pat, i)
    ensures forall j :: 0 <= j < i ==> !OccursAt(s, pat, j)
  {
    i := FirstOccurrenceFrom(s, pat, 0);
  }

  lemma {:induction false} FirstOccurrenceFrom(s: string, pat: string, k: nat) returns (i: nat)
    requires k <= |s| + 1
    requires exists n :: k <= n <= |s| && OccursAt(s, pat, n)
    requires forall j :: 0 <= j < k ==> !OccursAt(s, pat, j)
    ensures i + |pat| <= |s| && OccursAt(s, pat, i)
    ensures forall j :: 0 <= j < i ==> !OccursAt(s, pat, j)
    decreases |s| + 1 - k
  {
    if OccursAt(s, pat, k) {
      i := k;
    } else {
      i := FirstOccurrenceFrom(s, pat, k + 1);
    }
  }

  /** The inductive step of `ReplaceAllFirst`: from the tail to the whole string. */
  lemma ReplaceAllFirstStep(s: string, t: string, pat: string, rep: string, i: nat)
    requires pat != [] && 0 < i && i + |pat| <= |s| && !(pat <= s[0..]) && t == s[1..]
    requires ReplaceAll(t, pat, rep) == t[..i - 1] + rep + ReplaceAll(t[i - 1 + |pat|..], pat, rep)
    ensures ReplaceAll(s, pat, rep) == s[..i] + rep + ReplaceAll(s[i + |pat|..], pat, rep)
  {
    var tail := ReplaceAll(s[i + |pat|..], pat, rep);
    calc {
      ReplaceAll(s, pat, rep);
      == { ReplaceAllSkip(s, pat, rep); }
      [s[0]] + ReplaceAll(s[1..], pat, rep);
      == { ShiftedSuffix(s, i, |pat|); }
      [s[0]] + (s[1..][..i - 1] + rep + tail);
      == { PrefixCons(s, i, rep, tail); }
      s[..i] + rep + tail;
    }
  }

  /** A position where the pattern does not start is copied as it is. */
  lemma ReplaceAllSkip(s: string, pat: string, rep: string)
    requires pat != [] && |pat| <= |s| && !(pat <= s[0..])
    ensures ReplaceAll(s, pat, rep) == [s[0]] + ReplaceAll(s[1..], pat, rep)
  {
    assert s[0..] == s;
  }

  /** Occurrences in `s[1..]` are those in `s` moved one place left. */
  lemma ReplaceAllShift(s: string, pat: string, i: nat)
    requires 0 < i && i + |pat| <= |s| && OccursAt(s, pat, i)
    requires forall j :: 0 <= j < i ==> !OccursAt(s, pat, j)
    ensures OccursAt(s[1..], pat, i - 1)
    ensures forall j :: 0 <= j < i - 1 ==> !OccursAt(s[1..], pat, j)
  {
    assert s[1..][i - 1..] == s[i..];
    forall j | 0 <= j < i - 1 ensures !OccursAt(s[1..], pat, j) {
      assert s[1..][j..] == s[j + 1..];
      assert !OccursAt(s, pat, j + 1);
    }
  }

  lemma ShiftedSuffix(s: string, i: nat, n: nat)
    requires 0 < i && i + n <= |s|
    ensures s[1..][i - 1 + n..] == s[i + n..]
  {
  }

  lemma PrefixCons(s: string, i: nat, y: string, z: string)
    requires 0 < i <= |s|
    ensures [s[0]] + (s[1..][..i - 1] + y + z) == s[..i] + y + z
  {
    assert [s[0]] + s[1..][..i - 1] == s[..i];
    Regroup([s[0]], s[1..][..i - 1] + y, z);
    Regroup([s[0]], s[1..][..i - 1], y);
  }

  /** Replacing a pattern that does not occur leaves the string as it was. */
  lemma {:induction false} ReplaceAllAbsent(s: string, pat: string, rep: string)
    requires pat != [] && !Contains(s, pat)
    ensures ReplaceAll(s, pat, rep) == s
    decreases |s|
  {
    if |s| >= |pat| {
      assert s[0..] == s;
      assert !OccursAt(s, pat, 0);
      forall i | 0 <= i <= |s[1..]| ensures !OccursAt(s[1..], pat, i) {
        assert s[1..][i..] == s[i + 1..];
        assert !OccursAt(s, pat, i + 1);
      }
      ReplaceAllAbsent(s[1..], pat, rep);
      assert [s[0]] + s[1..] == s;
    }
  }
}
