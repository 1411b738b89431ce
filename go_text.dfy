/**
 * The few pieces of Go's standard library the simulator's core leans on,
 * stated over Dafny strings: strings.Split with a one-character separator,
 * strings.Join, strings.HasPrefix, strings.Contains, strconv.Itoa, reading a
 * Go map with its zero-value default, and the numbered "1. x; 2. y; " list
 * every validator builds its error message from.
 */
module GoText {

  datatype Option<+T> = None | Some(value: T)

  datatype Result<+T, +E> = Ok(value: T) | Err(error: E)

  /** strings.Join(parts, sep) */
  function Join(parts: seq<string>, sep: string): string
  {
    if |parts| == 0 then ""
    else if |parts| == 1 then parts[0]
    else parts[0] + sep + Join(parts[1..], sep)
  }

  /** strings.Split(s, string(sep)): the pieces between the separators, always at least one. */
  function Split(s: string, sep: char): (parts: seq<string>)
    ensures |parts| >= 1
    ensures forall i :: 0 <= i < |parts| ==> sep !in parts[i]
  {
    if |s| == 0 then [""]
    else
      var rest := Split(s[1..], sep);
      if s[0] == sep then [""] + rest
      else [[s[0]] + rest[0]] + rest[1..]
  }

  lemma {:induction false} JoinConsFirst(c: char, rest: seq<string>, sep: string)
    requires |rest| >= 1
    ensures Join([[c] + rest[0]] + rest[1..], sep) == [c] + Join(rest, sep)
  {
    var parts := [[c] + rest[0]] + rest[1..];
    assert parts[1..] == rest[1..];
  }

  /** Joining the pieces of a split with the separator gives back the string. */
  lemma {:induction false} SplitThenJoin(s: string, sep: char)
    ensures Join(Split(s, sep), [sep]) == s
  {
    if |s| > 0 {
      var rest := Split(s[1..], sep);
      SplitThenJoin(s[1..], sep);
      if s[0] == sep {
        assert ([""] + rest)[1..] == rest;
      } else {
        JoinConsFirst(s[0], rest, [sep]);
      }
      assert s == [s[0]] + s[1..];
    }
  }

  /** Splitting a string that holds no separator gives the string itself. */
  lemma {:induction false} SplitWithoutSeparator(s: string, sep: char)
    requires sep !in s
    ensures Split(s, sep) == [s]
  {
    if |s| > 0 {
      SplitWithoutSeparator(s[1..], sep);
      assert [s[0]] + s[1..] == s;
    }
  }

  /** A string holding the separator splits into at least two pieces. */
  lemma {:induction false} SplitWithSeparator(s: string, sep: char)
    requires sep in s
    ensures |Split(s, sep)| >= 2
  {
    if s[0] != sep {
      assert sep in s[1..] by {
        var i :| 0 <= i < |s| && s[i] == sep;
        assert s[1..][i - 1] == sep;
      }
      SplitWithSeparator(s[1..], sep);
    }
  }

  /** A separator-free piece followed by the separator splits off as the first piece. */
  lemma {:induction false} SplitFirst(a: string, rest: string, sep: char)
    requires sep !in a
    ensures Split(a + [sep] + rest, sep) == [a] + Split(rest, sep)
  {
    if |a| == 0 {
      assert a + [sep] + rest == [sep] + rest;
      assert ([sep] + rest)[1..] == rest;
    } else {
      assert (a + [sep] + rest)[1..] == a[1..] + [sep] + rest;
      SplitFirst(a[1..], rest, sep);
      assert [a[0]] + a[1..] == a;
    }
  }

  /** A trailing separator adds one empty piece at the end. */
  lemma {:induction false} SplitTrailingSeparator(s: string, sep: char)
    ensures Split(s + [sep], sep) == Split(s, sep) + [""]
  {
    if |s| == 0 {
      assert s + [sep] == [sep];
      assert [sep][1..] == [];
    } else {
      assert (s + [sep])[1..] == s[1..] + [sep];
      SplitTrailingSeparator(s[1..], sep);
    }
  }

  /** Two separator-free strings joined by the separator split back into the two. */
  lemma SplitPair(a: string, b: string, sep: char)
    requires sep !in a && sep !in b
    ensures Split(a + [sep] + b, sep) == [a, b]
  {
    SplitFirst(a, b, sep);
    SplitWithoutSeparator(b, sep);
  }

  /** Separator-free pieces joined with the separator split back into those pieces. */
  lemma {:induction false} JoinThenSplit(parts: seq<string>, sep: char)
    requires |parts| >= 1 && forall i :: 0 <= i < |parts| ==> sep !in parts[i]
    ensures Split(Join(parts, [sep]), sep) == parts
    decreases |parts|
  {
    if |parts| == 1 {
      SplitWithoutSeparator(parts[0], sep);
    } else {
      JoinThenSplit(parts[1..], sep);
      SplitFirst(parts[0], Join(parts[1..], [sep]), sep);
      assert [parts[0]] + parts[1..] == parts;
    }
  }

  /** strings.HasPrefix(s, prefix) */
  predicate HasPrefix(s: string, prefix: string)
  {
    |prefix| <= |s| && s[..|prefix|] == prefix
  }

  /** sub occurs in s starting at index i */
  predicate OccursAt(s: string, sub: string, i: int)
  {
    0 <= i && i + |sub| <= |s| && s[i..i + |sub|] == sub
  }

  /** strings.Contains(s, sub); every string contains the empty string. */
  predicate Contains(s: string, sub: string)
  {
    exists i :: 0 <= i <= |s| && OccursAt(s, sub, i)
  }

  lemma ContainsEmpty(s: string)
    ensures Contains(s, "")
  {
    assert OccursAt(s, "", 0);
  }

  /** Reading m[k] from a Go map[string]string: the empty string when k is absent. */
  function Get(m: map<string, string>, k: string): string
  {
    if k in m then m[k] else ""
  }

  function DigitChar(d: nat): char
    requires d < 10
  {
    "0123456789"[d]
  }

  /** strconv.Itoa / fmt's %v on a non-negative integer */
  function Itoa(n: nat): (s: string)
    ensures |s| >= 1
    decreases n
  {
    if n < 10 then [DigitChar(n)] else Itoa(n / 10) + [DigitChar(n % 10)]
  }

  /**
   * The message body every validator builds: one entry per error, in order,
   * each its number, a dot, the error and a semicolon, the numbering
   * starting at `first`.
   */
  function Numbered(errs: seq<string>, first: nat): string
  {
    if |errs| == 0 then ""
    else Entry(first, errs[0]) + Numbered(errs[1..], first + 1)
  }

  /** one numbered entry of the message */
  function Entry(n: nat, err: string): string
  {
    Itoa(n) + ". " + err + "; "
  }

  /** The loop that builds the message appends one numbered entry per finding, in order. */
  lemma {:induction false} NumberedAppend(errs: seq<string>, e: string, first: nat)
    ensures Numbered(errs + [e], first) == Numbered(errs, first) + Entry(first + |errs|, e)
  {
    if |errs| > 0 {
      assert (errs + [e])[1..] == errs[1..] + [e];
      NumberedAppend(errs[1..], e, first + 1);
      var a, b, c := Entry(first, errs[0]), Numbered(errs[1..], first + 1), Entry(first + |errs|, e);
      assert a + (b + c) == (a + b) + c;
    } else {
      assert errs + [e] == [e];
    }
  }

  /** The loop of the source, written out: it builds exactly Numbered(errs, 1). */
  method BuildMessage(errs: seq<string>) returns (msg: string)
    ensures msg == Numbered(errs, 1)
  {
    msg := "";
    var i := 0;
    while i < |errs|
      invariant 0 <= i <= |errs|
      invariant msg == Numbered(errs[..i], 1)
    {
      NumberedAppend(errs[..i], errs[i], 1);
      assert errs[..i + 1] == errs[..i] + [errs[i]];
      msg := msg + Entry(i + 1, errs[i]);
      i := i + 1;
    }
    assert errs[..|errs|] == errs;
  }
}
