/** The string helpers of the .NET base library that the client relies on,
    over `seq<char>`. */
module Text {
  import opened Optional

  /** `string.IsNullOrEmpty`. */
  predicate IsNullOrEmpty(s: Option<string>)
  {
    s.None? || |s.value| == 0
  }

  predicate IsUpperAscii(c: char)
  {
    'A' <= c <= 'Z'
  }

  /** `char.ToLower` restricted to ASCII letters; every other character is left as it is. */
  function ToLowerAscii(c: char): (r: char)
    ensures !IsUpperAscii(r)
    ensures !IsUpperAscii(c) ==> r == c
    ensures IsUpperAscii(c) ==> 'a' <= r <= 'z' && r as int - c as int == 'a' as int - 'A' as int
  {
    if IsUpperAscii(c) then (c as int + ('a' as int - 'A' as int)) as char else c
  }

  /** Position of the first occurrence of `c` in `s`. */
  function IndexOf(s: string, c: char): (r: Option<nat>)
    ensures r.Some? ==> r.value < |s| && s[r.value] == c && c !in s[..r.value]
    ensures r.None? <==> c !in s
  {
    if |s| == 0 then None
    else if s[0] == c then Some(0)
    else match IndexOf(s[1..], c)
      case None => None
      case Some(i) =>
        assert s[..i + 1] == [s[0]] + s[1..][..i];
        Some(i + 1)
  }

  /** A position holding `c` with no `c` before it is the one `IndexOf` finds. */
  lemma {:induction false} IndexOfUnique(s: string, c: char, i: nat)
    requires i < |s| && s[i] == c && c !in s[..i]
    ensures IndexOf(s, c) == Some(i)
  {
    if i > 0 {
      assert s[0] == s[..i][0];
      assert s[1..][..i - 1] == s[..i][1..];
      IndexOfUnique(s[1..], c, i - 1);
    }
  }

  /** The first occurrence of `c` is the one right after a prefix free of `c`. */
  lemma IndexOfAfterPrefix(a: string, c: char, b: string)
    requires c !in a
    ensures IndexOf(a + [c] + b, c) == Some(|a|)
  {
    var s := a + [c] + b;
    assert s[..|a|] == a;
    IndexOfUnique(s, c, |a|);
  }

  /** Text appended after an occurrence of `c` does not move the first one. */
  lemma IndexOfExtend(a: string, c: char, x: string)
    requires IndexOf(a, c).Some?
    ensures IndexOf(a + x, c) == IndexOf(a, c)
  {
    var i := IndexOf(a, c).value;
    assert (a + x)[..i] == a[..i];
    IndexOfUnique(a + x, c, i);
  }

  /** `string.Join` with a one-character separator. */
  function Join(sep: char, parts: seq<string>): string
  {
    if |parts| == 0 then ""
    else if |parts| == 1 then parts[0]
    else parts[0] + [sep] + Join(sep, parts[1..])
  }

  /** Cuts `s` at every occurrence of `sep`; the separators themselves are dropped. */
  function Split(s: string, sep: char): (r: seq<string>)
    ensures 1 <= |r|
    ensures forall k :: 0 <= k < |r| ==> sep !in r[k]
    decreases |s|
  {
    match IndexOf(s, sep)
    case None => [s]
    case Some(i) => [s[..i]] + Split(s[i + 1..], sep)
  }

  /** Splitting a joined list at the separator recovers the list, provided no
      part contains the separator. */
  lemma {:induction false} SplitJoin(sep: char, parts: seq<string>)
    requires 1 <= |parts|
    requires forall k :: 0 <= k < |parts| ==> sep !in parts[k]
    ensures Split(Join(sep, parts), sep) == parts
  {
    if |parts| > 1 {
      var head, tail := parts[0], parts[1..];
      JoinCons(sep, head, tail);
      assert parts == [head] + tail;
      SplitConcatFree(head, sep, Join(sep, tail));
      SplitJoin(sep, tail);
    }
  }

  /** Joining the pieces of a split restores the string. */
  lemma {:induction false} JoinSplit(s: string, sep: char)
    ensures Join(sep, Split(s, sep)) == s
    decreases |s|
  {
    match IndexOf(s, sep)
    case None =>
    case Some(i) =>
      JoinSplit(s[i + 1..], sep);
      var pieces := Split(s, sep);
      assert pieces[1..] == Split(s[i + 1..], sep);
      assert s == s[..i] + [sep] + s[i + 1..];
  }

  /** Concatenation regroups freely. Stated on its own so that a proof step
      that regroups large concatenations sees this one fact only. */
  lemma AppendAssociative<T>(x: seq<T>, y: seq<T>, z: seq<T>)
    ensures x + (y + z) == (x + y) + z
  {
  }

  /** Two parts joined are the first, the separator and the second. */
  lemma JoinTwo(sep: char, a: string, b: string)
    ensures Join(sep, [a, b]) == a + [sep] + b
  {
    assert [a, b][1..] == [b];
  }

  /** Joining a part in front of a non-empty list puts one separator between them. */
  lemma JoinCons(sep: char, a: string, parts: seq<string>)
    requires |parts| > 0
    ensures Join(sep, [a] + parts) == a + [sep] + Join(sep, parts)
  {
    assert ([a] + parts)[1..] == parts;
  }

  /** `Split` emits the text before the first separator and goes on after it. */
  lemma SplitAt(s: string, sep: char, i: nat)
    requires IndexOf(s, sep) == Some(i)
    ensures Split(s, sep) == [s[..i]] + Split(s[i + 1..], sep)
  {
  }

  /** Splitting `a`, a separator and `b` yields the pieces of `a` followed by those of `b`. */
  lemma {:induction false} SplitConcat(a: string, sep: char, b: string)
    ensures Split(a + [sep] + b, sep) == Split(a, sep) + Split(b, sep)
    decreases |a|
  {
    match IndexOf(a, sep)
    case None =>
      SplitConcatFree(a, sep, b);
    case Some(i) =>
      var rest := a[i + 1..];
      SplitConcatStep(a, sep, b, i);
      SplitConcat(rest, sep, b);
      var head, pa, pb := [a[..i]], Split(rest, sep), Split(b, sep);
      calc {
        Split(a + [sep] + b, sep);
        head + Split(rest + [sep] + b, sep);
        head + (pa + pb);
        { AppendAssociative(head, pa, pb); }
        (head + pa) + pb;
        Split(a, sep) + pb;
      }
  }

  lemma SplitConcatFree(a: string, sep: char, b: string)
    requires IndexOf(a, sep).None?
    ensures Split(a + [sep] + b, sep) == [a] + Split(b, sep)
  {
    var s := a + [sep] + b;
    IndexOfAfterPrefix(a, sep, b);
    SplitAt(s, sep, |a|);
    assert s[..|a|] == a && s[|a| + 1..] == b;
  }

  lemma SplitConcatStep(a: string, sep: char, b: string, i: nat)
    requires IndexOf(a, sep) == Some(i)
    ensures Split(a, sep) == [a[..i]] + Split(a[i + 1..], sep)
    ensures Split(a + [sep] + b, sep) == [a[..i]] + Split(a[i + 1..] + [sep] + b, sep)
  {
    var s := a + [sep] + b;
    assert s == a + ([sep] + b);
    IndexOfExtend(a, sep, [sep] + b);
    SplitAt(s, sep, i);
    SplitAt(a, sep, i);
    assert s[..i] == a[..i];
    assert s[i + 1..] == a[i + 1..] + [sep] + b;
  }
}
