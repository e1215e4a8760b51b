/**
 * Naming of the output file and formatting of the extracted cookies.
 */
module CookieOutput {

  import opened Wrappers

  /** One row of the cookie query: `(name, value)`. */
  datatype Cookie = Cookie(name: string, value: string)

  const FilePrefix: string := "cookie-"
  const FileExtension: string := ".txt"

  /** `domain.replace(".", "-")`: every dot becomes a dash, nothing else changes. */
  function DomainLabel(domain: string): (dashed: string)
    ensures |dashed| == |domain|
    ensures forall i :: 0 <= i < |domain| ==>
      dashed[i] == (if domain[i] == '.' then '-' else domain[i])
    ensures '.' !in dashed
  {
    if domain == [] then []
    else [if domain[0] == '.' then '-' else domain[0]] + DomainLabel(domain[1..])
  }

  /** Replacing a second time changes nothing. */
  lemma DomainLabelIdempotent(domain: string)
    ensures DomainLabel(DomainLabel(domain)) == DomainLabel(domain)
  {
  }

  /** On domains without dashes, the label still determines the domain. */
  lemma DomainLabelInjective(d1: string, d2: string)
    requires '-' !in d1 && '-' !in d2
    requires DomainLabel(d1) == DomainLabel(d2)
    ensures d1 == d2
  {
    assert |d1| == |d2|;
    forall i | 0 <= i < |d1| ensures d1[i] == d2[i] {
      assert DomainLabel(d1)[i] == DomainLabel(d2)[i];
      assert d1[i] in d1 && d2[i] in d2;
    }
  }

  /** With dashes allowed, two domains can share one output file. */
  lemma DomainLabelCollision()
    ensures OutputName("a.b") == OutputName("a-b")
  {
    assert DomainLabel("a.b") == "a-b";
    assert DomainLabel("a-b") == "a-b";
  }

  /** The output file name `cookie-<label>.txt`. */
  function OutputName(domain: string): (name: string)
    ensures |name| == |FilePrefix| + |domain| + |FileExtension|
    ensures name[..|FilePrefix|] == FilePrefix
    ensures name[|name| - |FileExtension|..] == FileExtension
    ensures name[|FilePrefix|..|name| - |FileExtension|] == DomainLabel(domain)
  {
    FilePrefix + DomainLabel(domain) + FileExtension
  }

  /** One `name=value` element of the cookie string. */
  function Pair(c: Cookie): string {
    c.name + "=" + c.value
  }

  /** `"; ".join(f"{name}={value}" for name, value in rows)`. */
  function CookieString(rows: seq<Cookie>): (s: string)
    ensures s == [] <==> rows == []
    ensures rows != [] ==> Pair(rows[0]) <= s
  {
    if rows == [] then []
    else if |rows| == 1 then Pair(rows[0])
    else Pair(rows[0]) + "; " + CookieString(rows[1..])
  }

  /** Appending a row appends a separator and its pair. */
  lemma {:induction false} CookieStringSnoc(rows: seq<Cookie>, c: Cookie)
    requires rows != []
    ensures CookieString(rows + [c]) == CookieString(rows) + "; " + Pair(c)
  {
    if |rows| == 1 {
      assert (rows + [c])[1..] == [c];
    } else {
      assert (rows + [c])[1..] == rows[1..] + [c];
      CookieStringSnoc(rows[1..], c);
    }
  }

  lemma TwoCookies()
    ensures CookieString([Cookie("a", "1"), Cookie("b", "2")]) == "a=1; b=2"
  {
    assert [Cookie("a", "1"), Cookie("b", "2")][1..] == [Cookie("b", "2")];
  }

  /** The file content the script writes: the cookie string and a newline, only when it is nonempty. */
  function FileContent(rows: seq<Cookie>): (content: Option<string>)
    ensures content.Some? <==> |rows| > 0
    ensures content.Some? ==> content.value == CookieString(rows) + "\n"
    ensures content.Some? ==> |content.value| >= 2 && content.value[|content.value| - 1] == '\n'
  {
    var s := CookieString(rows);
    if s != [] then
      assert Pair(rows[0]) <= s;
      Some(s + "\n")
    else None
  }

  // An inverse of CookieString, for rows whose text keeps the separators unambiguous.

  /** Position of the first `c` in `s`, or `|s|` when there is none. */
  function IndexOf(s: string, c: char): (k: nat)
    ensures k <= |s|
    ensures forall j :: 0 <= j < k ==> s[j] != c
    ensures k < |s| ==> s[k] == c
  {
    if s == [] then 0
    else if s[0] == c then 0
    else 1 + IndexOf(s[1..], c)
  }

  lemma {:induction false} IndexOfAppend(a: string, b: string, c: char)
    requires c !in a
    ensures IndexOf(a + b, c) == |a| + IndexOf(b, c)
  {
    if a != [] {
      assert (a + b)[1..] == a[1..] + b;
      IndexOfAppend(a[1..], b, c);
    } else {
      assert a + b == b;
    }
  }

  /** Split one element at its first `=`. */
  function ParsePair(p: string): Cookie {
    var k := IndexOf(p, '=');
    if k < |p| then Cookie(p[..k], p[k + 1..]) else Cookie(p, "")
  }

  /** Split a cookie string at each `"; "` and every element at its first `=`. */
  function ParseCookieString(s: string): seq<Cookie>
    decreases |s|
  {
    if s == [] then []
    else
      var k := IndexOf(s, ';');
      if k == |s| then [ParsePair(s)]
      else [ParsePair(s[..k])] + ParseCookieString(s[if k + 2 <= |s| then k + 2 else |s|..])
  }

  /** Names without `=` or `;`, values without `;`. */
  predicate Plain(c: Cookie) {
    '=' !in c.name && ';' !in c.name && ';' !in c.value
  }

  lemma ParsePairOf(c: Cookie)
    requires Plain(c)
    ensures ParsePair(Pair(c)) == c
  {
    IndexOfAppend(c.name, "=" + c.value, '=');
    assert ("=" + c.value)[0] == '=';
    assert Pair(c) == c.name + ("=" + c.value);
    assert IndexOf(Pair(c), '=') == |c.name|;
    assert Pair(c)[..|c.name|] == c.name;
    assert Pair(c)[|c.name| + 1..] == c.value;
  }

  /** Parsing recovers the rows from the cookie string when no text contains a separator. */
  lemma {:induction false} ParseCookieStringRoundTrip(rows: seq<Cookie>)
    requires forall i :: 0 <= i < |rows| ==> Plain(rows[i])
    ensures ParseCookieString(CookieString(rows)) == rows
  {
    if rows != [] {
      var c := rows[0];
      var p := Pair(c);
      assert ';' !in p by {
        assert Plain(c);
        forall j | 0 <= j < |p| ensures p[j] != ';' {
          if j < |c.name| { assert p[j] == c.name[j]; }
          else if j > |c.name| { assert p[j] == c.value[j - |c.name| - 1]; }
        }
      }
      ParsePairOf(c);
      if |rows| == 1 {
        IndexOfAppend(p, [], ';');
        assert p + [] == p;
      } else {
        var rest := CookieString(rows[1..]);
        var s := p + "; " + rest;
        assert s == p + ("; " + rest);
        IndexOfAppend(p, "; " + rest, ';');
        assert IndexOf(s, ';') == |p|;
        assert s[..|p|] == p;
        assert s[|p| + 2..] == rest;
        ParseCookieStringRoundTrip(rows[1..]);
        assert rows == [c] + rows[1..];
      }
    }
  }
}
