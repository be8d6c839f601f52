/** The few JavaScript string operations the modelled code relies on.

  Letter case is the ASCII one: `Lower` maps 'A'..'Z' and leaves every other character alone.
 */
module JsString {
  import opened Basics

  /** The white space and line terminators that `String.prototype.trim` removes. */
  predicate IsSpace(c: char) {
    var n := c as int;
    9 <= n <= 13 || n == 32 || n == 0xA0 || n == 0x1680 || 0x2000 <= n <= 0x200A
    || n == 0x2028 || n == 0x2029 || n == 0x202F || n == 0x205F || n == 0x3000 || n == 0xFEFF
  }

  predicate Trimmed(s: string) {
    s == "" || (!IsSpace(s[0]) && !IsSpace(s[|s| - 1]))
  }

  /** Index of the first character from `i` on that is no space. */
  function SkipSpaces(s: string, i: nat): (r: nat)
    requires i <= |s|
    ensures i <= r <= |s| && (r < |s| ==> !IsSpace(s[r]))
    decreases |s| - i
  {
    if i < |s| && IsSpace(s[i]) then SkipSpaces(s, i + 1) else i
  }

  /** End of `s[lo..hi]` without its trailing spaces. */
  function DropSpaces(s: string, lo: nat, hi: nat): (r: nat)
    requires lo <= hi <= |s|
    ensures lo <= r <= hi && (lo < r ==> !IsSpace(s[r - 1]))
  {
    if lo < hi && IsSpace(s[hi - 1]) then DropSpaces(s, lo, hi - 1) else hi
  }

  /** `s.trim()`. */
  function Trim(s: string): (r: string)
    ensures Trimmed(r)
  {
    var lo := SkipSpaces(s, 0);
    s[lo..DropSpaces(s, lo, |s|)]
  }

  lemma TrimFixesTrimmed(s: string)
    requires Trimmed(s)
    ensures Trim(s) == s
  {
  }

  lemma {:induction false} SkippedAreSpaces(s: string, i: nat)
    requires i <= |s|
    ensures forall j :: i <= j < SkipSpaces(s, i) ==> IsSpace(s[j])
    decreases |s| - i
  {
    hide IsSpace;
    if i < |s| && IsSpace(s[i]) { SkippedAreSpaces(s, i + 1); }
  }

  lemma {:induction false} DroppedAreSpaces(s: string, lo: nat, hi: nat)
    requires lo <= hi <= |s|
    ensures forall j :: DropSpaces(s, lo, hi) <= j < hi ==> IsSpace(s[j])
  {
    hide IsSpace;
    if lo < hi && IsSpace(s[hi - 1]) { DroppedAreSpaces(s, lo, hi - 1); }
  }

  /** Trimming takes off white space at both ends and nothing else; what is left has none there. */
  lemma TrimIs(s: string)
    ensures Trimmed(Trim(s))
    ensures exists lo: nat, hi: nat ::
              lo <= hi <= |s| && Trim(s) == s[lo..hi]
              && (forall j :: 0 <= j < lo ==> IsSpace(s[j])) && (forall j :: hi <= j < |s| ==> IsSpace(s[j]))
  {
    hide IsSpace;
    SkippedAreSpaces(s, 0);
    DroppedAreSpaces(s, SkipSpaces(s, 0), |s|);
  }

  function LowerChar(c: char): char {
    if 'A' <= c <= 'Z' then (c as int + 32) as char else c
  }

  function Lower(s: string): (r: string)
    ensures |r| == |s|
    ensures forall i :: 0 <= i < |s| ==> r[i] == LowerChar(s[i])
  {
    seq(|s|, i requires 0 <= i < |s| => LowerChar(s[i]))
  }

  lemma AlphabetIs()
    ensures forall i :: 0 <= i < 26 ==> "abcdefghijklmnopqrstuvwxyz"[i] as int == 97 + i
  {
  }

  lemma CapitalsAre()
    ensures forall i :: 0 <= i < 26 ==> "ABCDEFGHIJKLMNOPQRSTUVWXYZ"[i] as int == 65 + i
  {
  }

  /** Lower-casing maps the 26 capitals and leaves everything else. */
  lemma {:induction false} LowerIs(c: char)
    ensures Lower("ABCDEFGHIJKLMNOPQRSTUVWXYZ") == "abcdefghijklmnopqrstuvwxyz"
    ensures c !in "ABCDEFGHIJKLMNOPQRSTUVWXYZ" ==> Lower([c]) == [c]
  {
    AlphabetIs();
    CapitalsAre();
    var capitals := "ABCDEFGHIJKLMNOPQRSTUVWXYZ";
    if 'A' <= c <= 'Z' { assert capitals[c as int - 65] == c; }
  }

  predicate EndsWith(s: string, tail: string) {
    |tail| <= |s| && s[|s| - |tail|..] == tail
  }

  /** `s.split(sep)`: always at least one field. */
  function Split(s: string, sep: char): (fields: seq<string>)
    ensures |fields| >= 1
    ensures forall f :: f in fields ==> sep !in f
  {
    if s == "" then [""]
    else
      var rest := Split(s[1..], sep);
      if s[0] == sep then [""] + rest else [[s[0]] + rest[0]] + rest[1..]
  }

  /** `fields.join(sep)`. */
  function Join(fields: seq<string>, sep: char): string {
    if fields == [] then ""
    else if |fields| == 1 then fields[0]
    else fields[0] + [sep] + Join(fields[1..], sep)
  }

  /** The fields of a string that starts with `c`, from those of the rest. */
  function Prepend(c: char, sep: char, fields: seq<string>): seq<string>
    requires |fields| >= 1
  {
    if c == sep then [""] + fields else [[c] + fields[0]] + fields[1..]
  }

  lemma PrependConcat(c: char, sep: char, fields: seq<string>, more: seq<string>)
    requires |fields| >= 1
    ensures Prepend(c, sep, fields + more) == Prepend(c, sep, fields) + more
  {
    assert (fields + more)[1..] == fields[1..] + more;
    ConcatAssociates([[c] + fields[0]], fields[1..], more);
  }

  lemma SplitStep(s: string, c: char, sep: char)
    ensures Split([c] + s, sep) == Prepend(c, sep, Split(s, sep))
  {
    assert ([c] + s)[1..] == s;
  }

  lemma {:induction false} SplitConcat(a: string, sep: char, b: string)
    ensures Split(a + [sep] + b, sep) == Split(a, sep) + Split(b, sep)
  {
    if a == "" {
      assert a + [sep] + b == [sep] + b;
      SplitStep(b, sep, sep);
    } else {
      var c, rest := a[0], a[1..];
      assert a == [c] + rest;
      ConcatAssociates([c], rest, [sep]);
      ConcatAssociates([c], rest + [sep], b);
      SplitStep(rest, c, sep);
      SplitStep(rest + [sep] + b, c, sep);
      SplitConcat(rest, sep, b);
      PrependConcat(c, sep, Split(rest, sep), Split(b, sep));
      hide Prepend;
    }
    hide Split;
  }

  lemma {:induction false} SplitAtom(f: string, sep: char)
    requires sep !in f
    ensures Split(f, sep) == [f]
  {
    if f != "" {
      SplitAtom(f[1..], sep);
      assert [f[0]] + f[1..] == f;
    }
  }

  /** Splitting undoes joining, unless there is nothing to join. */
  lemma {:induction false} SplitJoin(fields: seq<string>, sep: char)
    requires fields != []
    requires forall f :: f in fields ==> sep !in f
    ensures Split(Join(fields, sep), sep) == fields
  {
    SplitAtom(fields[0], sep);
    if |fields| > 1 {
      SplitJoin(fields[1..], sep);
      SplitConcat(fields[0], sep, Join(fields[1..], sep));
    }
  }

  /** Joining undoes splitting. */
  lemma {:induction false} JoinSplit(s: string, sep: char)
    ensures Join(Split(s, sep), sep) == s
  {
    if s != "" {
      var rest := Split(s[1..], sep);
      JoinSplit(s[1..], sep);
      assert s == [s[0]] + s[1..];
      if s[0] == sep {
        assert Join([""] + rest, sep) == "" + [sep] + Join(rest, sep) by { assert ([""] + rest)[1..] == rest; }
      } else {
        var fields := [[s[0]] + rest[0]] + rest[1..];
        assert fields[1..] == rest[1..];
        if |rest| > 1 {
          assert [s[0]] + (rest[0] + [sep] + Join(rest[1..], sep)) == fields[0] + [sep] + Join(rest[1..], sep);
        }
      }
    }
  }
}
