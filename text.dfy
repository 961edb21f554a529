/**
  String operations the handler relies on: JavaScript's `toLowerCase` and
  `includes`, and `join` with the split that a store uses to read back the
  joined SET expression.
 */
module Text {

  /** ASCII lower-casing of one character. */
  function LowerChar(c: char): (d: char)
    ensures !('A' <= d <= 'Z')
  {
    if 'A' <= c <= 'Z' then (c as int + 32) as char else c
  }

  /** `s.toLowerCase()`, restricted to ASCII letters. */
  function Lower(s: string): (r: string)
    ensures |r| == |s|
    ensures forall i :: 0 <= i < |s| ==> r[i] == LowerChar(s[i])
  {
    if s == [] then [] else [LowerChar(s[0])] + Lower(s[1..])
  }

  /** `s.includes(sub)`: some suffix of `s` starts with `sub`. */
  predicate Includes(s: string, sub: string)
  {
    sub <= s || (s != [] && Includes(s[1..], sub))
  }

  /** `s.includes(sub)` holds exactly when `sub` occurs in `s` at some position. */
  lemma {:induction false} IncludesAt(s: string, sub: string)
    ensures Includes(s, sub) <==> exists i :: 0 <= i <= |s| && sub <= s[i..]
  {
    assert s[0..] == s;
    if s != [] {
      IncludesAt(s[1..], sub);
      if Includes(s, sub) && !(sub <= s) {
        var j :| 0 <= j <= |s[1..]| && sub <= s[1..][j..];
        assert s[1..][j..] == s[j + 1..];
      }
      if i :| 0 <= i <= |s| && sub <= s[i..] {
        if i > 0 {
          assert s[1..][i - 1..] == s[i..];
          assert Includes(s[1..], sub);
        }
      }
    }
  }

  /** Lowering is idempotent, so lowering both sides twice changes nothing. */
  lemma {:induction false} LowerIdempotent(s: string)
    ensures Lower(Lower(s)) == Lower(s)
  {
    if s != [] {
      LowerIdempotent(s[1..]);
    }
  }

  /** `parts.join(sep)`. */
  function Join(parts: seq<string>, sep: string): string
  {
    if parts == [] then ""
    else if |parts| == 1 then parts[0]
    else parts[0] + sep + Join(parts[1..], sep)
  }

  /** Join of a sequence extended by one more part. */
  lemma {:induction false} JoinSnoc(parts: seq<string>, last: string, sep: string)
    requires parts != []
    ensures Join(parts + [last], sep) == Join(parts, sep) + sep + last
  {
    if |parts| == 1 {
      assert parts + [last] == [parts[0], last];
      assert [parts[0], last][1..] == [last];
    } else {
      assert (parts + [last])[1..] == parts[1..] + [last];
      JoinSnoc(parts[1..], last, sep);
    }
  }

  /** Splits `s` at every non-overlapping occurrence of `sep`, scanning from the left. */
  function Split(s: string, sep: string): (parts: seq<string>)
    requires sep != ""
    ensures parts != []
    decreases |s|
  {
    if |s| < |sep| then [s]
    else if s[..|sep|] == sep then [""] + Split(s[|sep|..], sep)
    else
      var rest := Split(s[1..], sep);
      [[s[0]] + rest[0]] + rest[1..]
  }

  /** A text free of the separator's first character splits as a prefix of what follows it. */
  lemma {:induction false} SplitPrefix(x: string, rest: string, sep: string)
    requires sep != "" && sep[0] !in x
    ensures Split(x + rest, sep) == [x + Split(rest, sep)[0]] + Split(rest, sep)[1..]
  {
    if x == [] {
      assert x + rest == rest;
      var r := Split(rest, sep);
      assert r == [r[0]] + r[1..];
      assert x + r[0] == r[0];
    } else {
      var s := x + rest;
      SplitPrefix(x[1..], rest, sep);
      assert s[1..] == x[1..] + rest;
      assert x[0] == s[0];
      if |s| < |sep| {
        assert |rest| < |sep|;
        assert Split(rest, sep) == [rest];
        assert Split(s[1..], sep) == [s[1..]];
      } else {
        assert s[..|sep|][0] == x[0] != sep[0];
        assert [s[0]] + (x[1..] + Split(rest, sep)[0]) == x + Split(rest, sep)[0];
      }
    }
  }

  /** Splitting a join gives the parts back when no part holds the separator's first character. */
  lemma {:induction false} SplitJoin(parts: seq<string>, sep: string)
    requires sep != "" && parts != []
    requires forall i :: 0 <= i < |parts| ==> sep[0] !in parts[i]
    ensures Split(Join(parts, sep), sep) == parts
  {
    if |parts| == 1 {
      SplitPrefix(parts[0], "", sep);
      assert parts[0] + "" == parts[0];
    } else {
      var tail := Join(parts[1..], sep);
      SplitJoin(parts[1..], sep);
      var t := sep + tail;
      assert t[..|sep|] == sep && t[|sep|..] == tail;
      assert Split(t, sep) == [""] + parts[1..];
      assert Join(parts, sep) == parts[0] + t;
      SplitPrefix(parts[0], t, sep);
      assert parts[0] + "" == parts[0];
    }
  }
}
