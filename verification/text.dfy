/** The two JavaScript string builtins the relay relies on:
    `String.prototype.split("\n")` and `String.prototype.trim()`,
    together with `Array.prototype.join("\n")`, the inverse of the split. */
module Text {

  /** The code points `trim()` removes: ECMAScript WhiteSpace (tab, vertical
      tab, form feed, space, no-break space, byte order mark and the Unicode
      space separators) and LineTerminator (LF, CR, U+2028, U+2029). */
  predicate IsSpace(c: char) {
    var n := c as int;
    n == 0x09 || n == 0x0A || n == 0x0B || n == 0x0C || n == 0x0D || n == 0x20
    || n == 0xA0 || n == 0x1680 || (0x2000 <= n <= 0x200A) || n == 0x2028
    || n == 0x2029 || n == 0x202F || n == 0x205F || n == 0x3000 || n == 0xFEFF
  }

  predicate AllSpace(s: string) {
    forall i :: 0 <= i < |s| ==> IsSpace(s[i])
  }

  /** Neither end of `s` is whitespace. */
  predicate IsTrimmed(s: string) {
    s == [] || (!IsSpace(s[0]) && !IsSpace(s[|s| - 1]))
  }

  /** Length of the whitespace run at the front of `s`. */
  function LeadingSpace(s: string): (k: nat)
    ensures k <= |s|
    ensures forall i :: 0 <= i < k ==> IsSpace(s[i])
    ensures k == |s| || !IsSpace(s[k])
  {
    if |s| > 0 && IsSpace(s[0]) then 1 + LeadingSpace(s[1..]) else 0
  }

  /** Length of the whitespace run at the back of `s`. */
  function TrailingSpace(s: string): (k: nat)
    ensures k <= |s|
    ensures forall i :: |s| - k <= i < |s| ==> IsSpace(s[i])
    ensures k == |s| || !IsSpace(s[|s| - 1 - k])
  {
    if |s| > 0 && IsSpace(s[|s| - 1]) then 1 + TrailingSpace(s[..|s| - 1]) else 0
  }

  /** `s.trim()`: the text between the leading and the trailing whitespace. */
  function Trim(s: string): (r: string)
    ensures IsTrimmed(r)
    ensures |r| <= |s|
    ensures r == [] <==> AllSpace(s)
  {
    var t := s[LeadingSpace(s)..];
    t[..|t| - TrailingSpace(t)]
  }

  /** `trim()` removes exactly the whitespace padding around a trimmed text:
      together with the ensures of Trim this characterises it completely. */
  lemma TrimPadded(p: string, d: string, q: string)
    requires AllSpace(p) && AllSpace(q) && IsTrimmed(d)
    ensures Trim(p + d + q) == d
  {
    var s := p + d + q;
    if d == [] {
      assert AllSpace(s) by {
        forall i | 0 <= i < |s| ensures IsSpace(s[i]) {
          if i < |p| { assert s[i] == p[i]; } else { assert s[i] == q[i - |p|]; }
        }
      }
    } else {
      assert s[|p|] == d[0];
      forall i | 0 <= i < |p| ensures IsSpace(s[i]) { assert s[i] == p[i]; }
      var lead := LeadingSpace(s);
      assert lead == |p|;
      var t := s[lead..];
      assert t == d + q;
      assert t[|d| - 1] == d[|d| - 1];
      forall i | |d| <= i < |t| ensures IsSpace(t[i]) { assert t[i] == q[i - |d|]; }
      assert TrailingSpace(t) == |q|;
      assert t[..|t| - |q|] == d;
    }
  }

  /** A text that is already trimmed is its own trim. */
  lemma TrimTrimmed(d: string)
    requires IsTrimmed(d)
    ensures Trim(d) == d
  {
    TrimPadded("", d, "");
    assert "" + d + "" == d;
  }

  /** `s.split("\n")`: the maximal newline-free pieces of `s`, in order.
      The result is never empty: splitting "" gives [""]. */
  function Split(s: string): (parts: seq<string>)
    ensures |parts| >= 1
  {
    if s == [] then [""]
    else
      var rest := Split(s[1..]);
      if s[0] == '\n' then [""] + rest
      else [[s[0]] + rest[0]] + rest[1..]
  }

  /** No piece of a split holds a newline. */
  lemma {:induction false} SplitNoNewline(s: string)
    ensures forall i :: 0 <= i < |Split(s)| ==> '\n' !in Split(s)[i]
  {
    if s != [] {
      SplitNoNewline(s[1..]);
      var rest := Split(s[1..]);
      if s[0] != '\n' {
        assert '\n' !in [s[0]] + rest[0];
        assert forall i :: 1 <= i < |rest| ==> rest[1..][i - 1] == rest[i];
      }
    }
  }

  /** `parts.join("\n")`. */
  function Join(parts: seq<string>): string {
    if |parts| == 0 then ""
    else if |parts| == 1 then parts[0]
    else parts[0] + "\n" + Join(parts[1..])
  }

  /** Joining two non-empty runs of pieces puts one newline between them. */
  lemma {:induction false} JoinAppend(p: seq<string>, q: seq<string>)
    requires p != [] && q != []
    ensures Join(p + q) == Join(p) + "\n" + Join(q)
  {
    if |p| > 1 {
      JoinAppend(p[1..], q);
      assert (p + q)[1..] == p[1..] + q;
    }
  }

  /** A join ends with its last piece, after a newline when there are more. */
  lemma JoinLast(parts: seq<string>)
    requires parts != []
    ensures |parts| == 1 ==> Join(parts) == parts[0]
    ensures |parts| > 1 ==> Join(parts) == Join(parts[..|parts| - 1]) + "\n" + parts[|parts| - 1]
  {
    var n := |parts| - 1;
    if n > 0 {
      calc {
        Join(parts);
        { assert parts == parts[..n] + [parts[n]]; }
        Join(parts[..n] + [parts[n]]);
        { JoinAppend(parts[..n], [parts[n]]); }
        Join(parts[..n]) + "\n" + Join([parts[n]]);
      }
    }
  }

  /** Splitting loses nothing: joining the pieces gives the text back. */
  lemma {:induction false} JoinSplit(s: string)
    ensures Join(Split(s)) == s
  {
    if s != [] {
      var rest := Split(s[1..]);
      JoinSplit(s[1..]);
      if s[0] == '\n' {
        assert Split(s)[1..] == rest;
        assert s == "\n" + s[1..];
      } else {
        var parts := Split(s);
        if |rest| == 1 {
          assert parts == [[s[0]] + rest[0]];
          assert s == [s[0]] + s[1..];
        } else {
          assert parts[1..] == rest[1..];
          assert Join(rest) == rest[0] + "\n" + Join(rest[1..]);
          assert s == [s[0]] + s[1..];
        }
      }
    }
  }

  /** Joining newline-free pieces and splitting again gives the pieces back. */
  lemma {:induction false} SplitJoin(parts: seq<string>)
    requires |parts| >= 1
    requires forall i :: 0 <= i < |parts| ==> '\n' !in parts[i]
    ensures Split(Join(parts)) == parts
  {
    if |parts| == 1 {
      NoNewlineSplit(parts[0]);
    } else {
      SplitJoin(parts[1..]);
      var tail := "\n" + Join(parts[1..]);
      assert Split(tail) == [""] + parts[1..] by {
        assert tail[1..] == Join(parts[1..]);
      }
      SplitPrefix(parts[0], tail);
      assert Join(parts) == parts[0] + tail;
      assert Split(tail)[0] == "" && Split(tail)[1..] == parts[1..];
      assert parts[0] + "" == parts[0];
      assert [parts[0]] + parts[1..] == parts;
    }
  }

  /** A newline-free text splits into itself. */
  lemma {:induction false} NoNewlineSplit(s: string)
    requires '\n' !in s
    ensures Split(s) == [s]
  {
    if s != [] {
      NoNewlineSplit(s[1..]);
      assert [s[0]] + s[1..] == s;
    }
  }

  /** A newline-free prefix glues onto the first piece of what follows. */
  lemma {:induction false} SplitPrefix(a: string, b: string)
    requires '\n' !in a
    ensures Split(a + b) == [a + Split(b)[0]] + Split(b)[1..]
  {
    var sb := Split(b);
    if a == [] {
      assert a + b == b && a + sb[0] == sb[0];
      assert [sb[0]] + sb[1..] == sb;
    } else {
      SplitPrefix(a[1..], b);
      var r := Split(a[1..] + b);
      assert r == [a[1..] + sb[0]] + sb[1..];
      assert (a + b)[0] == a[0] && (a + b)[1..] == a[1..] + b;
      assert Split(a + b) == [[a[0]] + r[0]] + r[1..];
      assert [a[0]] + (a[1..] + sb[0]) == a + sb[0];
    }
  }
}
