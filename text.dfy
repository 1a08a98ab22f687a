/**
 * Java strings as sequences of UTF-8 bytes, and the few `java.lang.String`
 * operations the kit relies on: `trim`, `startsWith`, `endsWith` and `split`.
 */
module Text {

  newtype byte = x: int | 0 <= x < 256

  /** The UTF-8 bytes of a Java string. */
  type Text = seq<byte>

  const Space: byte := 32
  const Comma: byte := 44
  const Dash: byte := 45

  /** A character of a string literal, as the byte that encodes it (every literal here is ASCII). */
  function ByteOf(c: char): byte {
    ((c as int) % 256) as byte
  }

  /** The bytes of a string literal. */
  function Ascii(s: string): (t: Text)
    ensures |t| == |s|
    ensures forall i :: 0 <= i < |s| ==> t[i] == ByteOf(s[i])
  {
    seq(|s|, i requires 0 <= i < |s| => ByteOf(s[i]))
  }

  predicate StartsWith<T(==)>(s: seq<T>, prefix: seq<T>) {
    |prefix| <= |s| && s[..|prefix|] == prefix
  }

  predicate EndsWith<T(==)>(s: seq<T>, suffix: seq<T>) {
    |suffix| <= |s| && s[|s| - |suffix|..] == suffix
  }

  /** `String.trim`: a character at or below U+0020 counts as blank. */
  predicate IsBlank(b: byte) {
    b <= Space
  }

  function TrimStart(s: Text): (r: Text)
    ensures |r| <= |s| && r == s[|s| - |r|..]
    ensures r == [] || !IsBlank(r[0])
  {
    if |s| > 0 && IsBlank(s[0]) then TrimStart(s[1..]) else s
  }

  function TrimEnd(s: Text): (r: Text)
    ensures |r| <= |s| && r == s[..|r|]
    ensures r == [] || !IsBlank(r[|r| - 1])
  {
    if |s| > 0 && IsBlank(s[|s| - 1]) then TrimEnd(s[..|s| - 1]) else s
  }

  /** `String.trim`: the text without its leading and trailing blanks. */
  function Trim(s: Text): (r: Text)
    ensures r == [] || (!IsBlank(r[0]) && !IsBlank(r[|r| - 1]))
  {
    TrimEnd(TrimStart(s))
  }

  /** A text that neither starts nor ends with a blank is its own trim. */
  lemma TrimUnblanked(s: Text)
    requires s == [] || (!IsBlank(s[0]) && !IsBlank(s[|s| - 1]))
    ensures Trim(s) == s
  {
  }

  /** Trimming only removes blanks: every byte that is not blank survives, and only blanks are lost. */
  lemma {:induction false} TrimEmptyIffAllBlank(s: Text)
    ensures Trim(s) == [] <==> forall i :: 0 <= i < |s| ==> IsBlank(s[i])
  {
    if |s| > 0 && IsBlank(s[0]) {
      TrimEmptyIffAllBlank(s[1..]);
      assert forall i :: 1 <= i < |s| ==> s[i] == s[1..][i - 1];
    } else if |s| > 0 {
      assert TrimStart(s) == s;
      assert TrimEnd(s) != [] by {
        TrimEndKeepsFirst(s);
      }
    }
  }

  lemma {:induction false} TrimEndKeepsFirst(s: Text)
    requires |s| > 0 && !IsBlank(s[0])
    ensures |TrimEnd(s)| > 0 && TrimEnd(s)[0] == s[0]
  {
    if IsBlank(s[|s| - 1]) {
      TrimEndKeepsFirst(s[..|s| - 1]);
    }
  }

  /** All the fields of `s` between separators, empty ones included: one more than there are separators. */
  function Fields(s: Text, sep: byte): (r: seq<Text>)
    ensures |r| >= 1
    decreases |s|
  {
    if |s| == 0 then [[]]
    else
      var rest := Fields(s[1..], sep);
      if s[0] == sep then [[]] + rest else [[s[0]] + rest[0]] + rest[1..]
  }

  /** The fields put back together, with one separator between neighbours. */
  function Join(fields: seq<Text>, sep: byte): Text
  {
    if |fields| == 0 then []
    else if |fields| == 1 then fields[0]
    else fields[0] + [sep] + Join(fields[1..], sep)
  }

  function DropTrailingEmpty(fields: seq<Text>): (r: seq<Text>)
    ensures |r| <= |fields| && r == fields[..|r|]
    ensures r == [] || r[|r| - 1] != []
    ensures forall i :: |r| <= i < |fields| ==> fields[i] == []
  {
    if |fields| == 0 || fields[|fields| - 1] != [] then fields
    else DropTrailingEmpty(fields[..|fields| - 1])
  }

  /**
   * `String.split` with a one-character separator and no limit: when the separator
   * does not occur the result is the whole string (even when it is empty);
   * otherwise it is every field between separators, with trailing empty fields removed.
   */
  function JavaSplit(s: Text, sep: byte): seq<Text>
  {
    if sep !in s then [s] else DropTrailingEmpty(Fields(s, sep))
  }

  /** Splitting and joining are inverse: no field holds the separator, and joining gives back the text. */
  lemma {:induction false} FieldsJoin(s: Text, sep: byte)
    ensures Join(Fields(s, sep), sep) == s
    ensures forall i :: 0 <= i < |Fields(s, sep)| ==> sep !in Fields(s, sep)[i]
    decreases |s|
  {
    if |s| > 0 {
      var rest := Fields(s[1..], sep);
      FieldsJoin(s[1..], sep);
      if s[0] == sep {
        assert Join([[]] + rest, sep) == [] + [sep] + Join(rest, sep);
      } else {
        var r := [[s[0]] + rest[0]] + rest[1..];
        if |rest| == 1 {
          assert Join(r, sep) == [s[0]] + rest[0];
        } else {
          assert Join(rest, sep) == rest[0] + [sep] + Join(rest[1..], sep);
          assert Join(r, sep) == [s[0]] + rest[0] + [sep] + Join(r[1..], sep);
          assert r[1..] == rest[1..];
        }
        assert s == [s[0]] + s[1..];
        assert forall i :: 1 <= i < |r| ==> r[i] == rest[i];
      }
    }
  }

  /** Joining a prefix of the fields, then the separators of the fields dropped after it. */
  lemma {:induction false} JoinDropsEmptyTail(fields: seq<Text>, sep: byte, n: nat)
    requires 0 < n <= |fields|
    requires forall i :: n <= i < |fields| ==> fields[i] == []
    ensures Join(fields, sep) == Join(fields[..n], sep) + seq(|fields| - n, _ => sep)
    decreases |fields|
  {
    if n < |fields| {
      if |fields| == 1 {
      } else if n == 1 {
        JoinAllEmpty(fields[1..], sep);
        assert fields[1..] == seq(|fields| - 1, _ => []);
        assert Join(fields, sep) == fields[0] + [sep] + Join(fields[1..], sep);
        assert fields[..1] == [fields[0]];
      } else {
        JoinDropsEmptyTail(fields[1..], sep, n - 1);
        assert fields[1..][..n - 1] == fields[1..n];
        assert fields[..n][1..] == fields[1..n];
        assert Join(fields[..n], sep) == fields[0] + [sep] + Join(fields[1..n], sep);
      }
    } else {
      assert fields[..n] == fields;
    }
  }

  lemma {:induction false} JoinAllEmpty(fields: seq<Text>, sep: byte)
    requires |fields| > 0
    requires forall i :: 0 <= i < |fields| ==> fields[i] == []
    ensures Join(fields, sep) == seq(|fields| - 1, _ => sep)
    decreases |fields|
  {
    if |fields| > 1 {
      JoinAllEmpty(fields[1..], sep);
    }
  }

  /** `String.split(",")` keeps the text: joined back it is the text without the separators that ended it. */
  lemma JavaSplitJoin(s: Text, sep: byte)
    ensures var r := JavaSplit(s, sep);
      && (sep !in s ==> r == [s])
      && (sep in s ==> (r == [] || r[|r| - 1] != []) && forall i :: 0 <= i < |r| ==> sep !in r[i])
      && |Join(r, sep)| <= |s| && s[..|Join(r, sep)|] == Join(r, sep)
      && forall i :: |Join(r, sep)| <= i < |s| ==> s[i] == sep
  {
    var f := Fields(s, sep);
    FieldsJoin(s, sep);
    if sep in s {
      var r := DropTrailingEmpty(f);
      if |r| == 0 {
        JoinAllEmpty(f, sep);
      } else {
        JoinDropsEmptyTail(f, sep, |r|);
      }
    }
  }
}
