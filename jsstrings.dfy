/**
 * The JavaScript string behaviour the handlers rely on: truthiness of request fields,
 * `a || b` fallbacks, `startsWith`, `split(' ')`, `trim()`, `toUpperCase()` on ASCII
 * status words, and Node's `path.extname`.
 */
module JsStrings {
  import opened Wrappers

  /** A request or record string field that JavaScript treats as true: present and non-empty.
      Mongoose's `required` validator on a String field accepts exactly these values. */
  predicate Truthy(o: Option<string>) {
    o.Some? && o.value != ""
  }

  /** `o || fallback` for a string operand. */
  function OrElse(o: Option<string>, fallback: string): (r: string)
    ensures Truthy(o) ==> r == o.value
    ensures !Truthy(o) ==> r == fallback
  {
    if Truthy(o) then o.value else fallback
  }

  /** A template literal's rendering of an optional string: an absent one reads "undefined". */
  function Interpolate(o: Option<string>): string {
    match o
    case Some(s) => s
    case None => "undefined"
  }

  predicate StartsWith(s: string, prefix: string) {
    |prefix| <= |s| && s[..|prefix|] == prefix
  }

  // ---------------------------------------------------------------------------
  // String.prototype.split with a one-character separator

  function Split(s: string, c: char): (r: seq<string>)
    ensures |r| >= 1
    ensures forall i :: 0 <= i < |r| ==> c !in r[i]
  {
    if |s| == 0 then [""]
    else
      var rest := Split(s[1..], c);
      if s[0] == c then [""] + rest
      else [[s[0]] + rest[0]] + rest[1..]
  }

  /** `parts.join(c)`, the inverse of `Split`. */
  function Join(parts: seq<string>, c: char): string
    requires |parts| >= 1
  {
    if |parts| == 1 then parts[0] else parts[0] + [c] + Join(parts[1..], c)
  }

  lemma {:induction false} JoinSplit(s: string, c: char)
    ensures Join(Split(s, c), c) == s
  {
    if |s| > 0 {
      JoinSplit(s[1..], c);
      var rest := Split(s[1..], c);
      if s[0] != c {
        if |rest| == 1 {
          assert Join(Split(s, c), c) == [s[0]] + rest[0];
        } else {
          assert Split(s, c)[1..] == rest[1..];
          assert Join(Split(s, c), c) == ([s[0]] + rest[0]) + [c] + Join(rest[1..], c);
        }
        assert s == [s[0]] + s[1..];
      } else {
        assert Split(s, c)[1..] == rest;
        assert s == [c] + s[1..];
      }
    }
  }

  /** Splitting a joined list of separator-free parts gives the parts back. */
  lemma {:induction false} SplitJoin(parts: seq<string>, c: char)
    requires |parts| >= 1
    requires forall i :: 0 <= i < |parts| ==> c !in parts[i]
    ensures Split(Join(parts, c), c) == parts
  {
    if |parts| == 1 {
      SplitNoSeparator(parts[0], c);
    } else {
      SplitJoin(parts[1..], c);
      SplitAfterPart(parts[0], Join(parts[1..], c), c);
      assert parts == [parts[0]] + parts[1..];
    }
  }

  lemma {:induction false} SplitNoSeparator(s: string, c: char)
    requires c !in s
    ensures Split(s, c) == [s]
  {
    if |s| > 0 {
      SplitNoSeparator(s[1..], c);
      assert s == [s[0]] + s[1..];
    }
  }

  lemma {:induction false} SplitAfterPart(part: string, rest: string, c: char)
    requires c !in part
    ensures Split(part + [c] + rest, c) == [part] + Split(rest, c)
  {
    if |part| == 0 {
      assert part + [c] + rest == [c] + rest;
      assert ([c] + rest)[1..] == rest;
    } else {
      var s := part + [c] + rest;
      assert s[0] == part[0];
      assert s[1..] == part[1..] + [c] + rest;
      SplitAfterPart(part[1..], rest, c);
      assert part == [part[0]] + part[1..];
    }
  }

  /** The `k`-th segment of `s.split(c)`, or none when there are fewer segments. */
  function Segment(s: string, c: char, k: nat): (r: Option<string>)
    ensures r.Some? ==> c !in r.value
  {
    var parts := Split(s, c);
    if k < |parts| then Some(parts[k]) else None
  }

  // ---------------------------------------------------------------------------
  // String.prototype.trim

  /** ECMAScript WhiteSpace and LineTerminator code points, which `trim()` removes. */
  const JsSpaces: set<char> := {' ', '\t', '\n', '\r', '\U{000B}', '\U{000C}', '\U{00A0}', '\U{1680}',
    '\U{2000}', '\U{2001}', '\U{2002}', '\U{2003}', '\U{2004}', '\U{2005}', '\U{2006}', '\U{2007}',
    '\U{2008}', '\U{2009}', '\U{200A}', '\U{2028}', '\U{2029}', '\U{202F}', '\U{205F}', '\U{3000}', '\U{FEFF}'}

  predicate IsJsSpace(ch: char) {
    ch in JsSpaces
  }

  /** How many white-space characters open `s`. */
  function LeadingSpaces(s: string): (n: nat)
    ensures n <= |s|
    ensures forall k :: 0 <= k < n ==> IsJsSpace(s[k])
    ensures n == |s| || !IsJsSpace(s[n])
  {
    if |s| > 0 && IsJsSpace(s[0]) then 1 + LeadingSpaces(s[1..]) else 0
  }

  /** How many white-space characters close `s`. */
  function TrailingSpaces(s: string): (n: nat)
    ensures n <= |s|
    ensures forall k :: |s| - n <= k < |s| ==> IsJsSpace(s[k])
    ensures n == |s| || !IsJsSpace(s[|s| - n - 1])
  {
    if |s| > 0 && IsJsSpace(s[|s| - 1]) then 1 + TrailingSpaces(s[..|s| - 1]) else 0
  }

  /** `s.trim()`: `s` with its leading and trailing white space removed, and nothing else. */
  function Trim(s: string): (r: string)
    ensures r == "" || (!IsJsSpace(r[0]) && !IsJsSpace(r[|r| - 1]))
    ensures LeadingSpaces(s) + |r| <= |s| && r == s[LeadingSpaces(s)..LeadingSpaces(s) + |r|]
    ensures forall k :: LeadingSpaces(s) + |r| <= k < |s| ==> IsJsSpace(s[k])
    ensures r == "" <==> forall k :: 0 <= k < |s| ==> IsJsSpace(s[k])
  {
    var lead := LeadingSpaces(s);
    if lead == |s| then ""
    else
      var trail := TrailingSpaces(s);
      assert !IsJsSpace(s[lead]);
      s[lead..|s| - trail]
  }

  lemma TrimIdempotent(s: string)
    ensures Trim(Trim(s)) == Trim(s)
  {
    var t := Trim(s);
    if t != "" {
      assert LeadingSpaces(t) == 0;
      assert TrailingSpaces(t) == 0;
      assert t[0..|t|] == t;
    }
  }

  // ---------------------------------------------------------------------------
  // String.prototype.toUpperCase, on the ASCII letters the status words use

  function UpperChar(ch: char): char {
    if 'a' <= ch <= 'z' then (ch as int - 'a' as int + 'A' as int) as char else ch
  }

  function AsciiUpper(s: string): (r: string)
    ensures |r| == |s|
    ensures forall i :: 0 <= i < |s| ==> r[i] == UpperChar(s[i])
  {
    if |s| == 0 then "" else [UpperChar(s[0])] + AsciiUpper(s[1..])
  }

  /** A word whose letters upper-case one by one to `u` upper-cases to `u`. */
  lemma UpperWord(w: string, u: string)
    requires |w| == |u| && forall i :: 0 <= i < |w| ==> UpperChar(w[i]) == u[i]
    ensures AsciiUpper(w) == u
  {
  }

  // ---------------------------------------------------------------------------
  // Node's path.extname (POSIX)

  /** `p` without its trailing `/` characters. */
  function StripTrailingSlashes(p: string): (r: string)
    ensures |r| <= |p| && r == p[..|r|]
    ensures r == "" || r[|r| - 1] != '/'
  {
    if |p| > 0 && p[|p| - 1] == '/' then StripTrailingSlashes(p[..|p| - 1]) else p
  }

  /** The part of `p` after its last `/`. */
  function LastPart(p: string): (r: string)
    ensures |r| <= |p| && r == p[|p| - |r|..]
    ensures '/' !in r
  {
    if |p| == 0 then ""
    else if p[|p| - 1] == '/' then ""
    else LastPart(p[..|p| - 1]) + [p[|p| - 1]]
  }

  /** Index of the last `.` in `s`. */
  function LastDot(s: string): (r: Option<nat>)
    ensures r.Some? ==> r.value < |s| && s[r.value] == '.' && '.' !in s[r.value + 1..]
    ensures r.None? ==> '.' !in s
  {
    if |s| == 0 then None
    else if s[|s| - 1] == '.' then Some(|s| - 1)
    else
      var r := LastDot(s[..|s| - 1]);
      assert s == s[..|s| - 1] + [s[|s| - 1]];
      assert r.Some? ==> s[r.value + 1..] == s[..|s| - 1][r.value + 1..] + [s[|s| - 1]];
      r
  }

  /** `path.extname(p)`: from the last `.` of the last path part to its end; empty when that
      part has no `.`, when its only dots lead it (".bashrc"), or when it is "..". */
  function ExtName(p: string): (r: string)
    ensures r == "" || (r[0] == '.' && '.' !in r[1..])
    ensures '/' !in r
    ensures var part := LastPart(StripTrailingSlashes(p));
            && (r != "" <==> LastDot(part).Some? && LastDot(part).value > 0 && part != "..")
            && (r != "" ==> r == part[LastDot(part).value..])
  {
    PartExtension(LastPart(StripTrailingSlashes(p)))
  }

  /** The extension of one path part, which has no `/`. */
  function PartExtension(part: string): (r: string)
    requires '/' !in part
    ensures r == "" || (r[0] == '.' && '.' !in r[1..])
    ensures '/' !in r
    ensures |r| <= |part| && r == part[|part| - |r|..]
    ensures r != "" <==> LastDot(part).Some? && LastDot(part).value > 0 && part != ".."
    ensures r != "" ==> r == part[LastDot(part).value..]
  {
    match LastDot(part)
    case None => ""
    case Some(k) =>
      if k == 0 || part == ".." then ""
      else
        ExtensionOfPart(part, k);
        part[k..]
  }

  lemma ExtensionOfPart(part: string, k: nat)
    requires '/' !in part
    requires k < |part| && part[k] == '.' && '.' !in part[k + 1..]
    ensures part[k..][0] == '.' && '.' !in part[k..][1..] && '/' !in part[k..]
  {
    assert part[k..][1..] == part[k + 1..];
    forall i | 0 <= i < |part[k..]| ensures part[k..][i] != '/' {
      assert part[k..][i] == part[k + i];
    }
  }

  /** For a file name "base.ext" whose base starts with something other than a dot, the
      extension is ".ext". */
  lemma ExtNameOfFileName(base: string, ext: string)
    requires |base| > 0 && base[0] != '.' && '/' !in base
    requires '.' !in ext && '/' !in ext
    ensures ExtName(base + "." + ext) == "." + ext
  {
    var p := base + "." + ext;
    NoSlashIn(base, ext);
    PartOfSlashFree(p);
    LastDotAt(base + ".", ext);
    assert p != ".." by { assert p[0] == base[0]; }
    SuffixFrom(base, ext);
  }

  lemma SuffixFrom(base: string, ext: string)
    ensures (base + "." + ext)[|base|..] == "." + ext
  {
  }

  /** A path with no `.` anywhere has no extension. */
  lemma ExtNameWithoutDot(p: string)
    requires '.' !in p
    ensures ExtName(p) == ""
  {
    var s := StripTrailingSlashes(p);
    var part := LastPart(s);
    assert '.' !in part by {
      forall j | 0 <= j < |part| ensures part[j] != '.' {
        assert part[j] == s[|s| - |part| + j] == p[|s| - |part| + j];
      }
    }
  }

  lemma NoSlashIn(base: string, ext: string)
    requires '/' !in base && '/' !in ext
    ensures '/' !in base + "." + ext
  {
    var p := base + "." + ext;
    forall i | 0 <= i < |p| ensures p[i] != '/' {
      if i < |base| { assert p[i] == base[i]; }
      else if i > |base| { assert p[i] == ext[i - |base| - 1]; }
    }
  }

  lemma PartOfSlashFree(p: string)
    requires |p| > 0 && '/' !in p
    ensures LastPart(StripTrailingSlashes(p)) == p
  {
    assert p[|p| - 1] in p;
    assert StripTrailingSlashes(p) == p;
    LastPartNoSlash(p);
  }

  lemma {:induction false} LastPartNoSlash(p: string)
    requires '/' !in p
    ensures LastPart(p) == p
  {
    if |p| > 0 {
      LastPartNoSlash(p[..|p| - 1]);
      assert p == p[..|p| - 1] + [p[|p| - 1]];
    }
  }

  lemma {:induction false} LastDotAt(head: string, ext: string)
    requires |head| > 0 && head[|head| - 1] == '.' && '.' !in ext
    ensures LastDot(head + ext) == Some(|head| - 1)
  {
    if |ext| > 0 {
      var s := head + ext;
      assert s[..|s| - 1] == head + ext[..|ext| - 1];
      assert s[|s| - 1] == ext[|ext| - 1];
      LastDotAt(head, ext[..|ext| - 1]);
    } else {
      assert head + ext == head;
    }
  }
}
