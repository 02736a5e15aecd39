/**
 Reading the token out of an `Authorization` header the way the handler does:
 `authorization?.split(' ')[1]`, the second space-separated field.
 */
module Bearer {
  import opened Wrappers

  /** The position of the first occurrence of `c` in `s`. */
  function FirstIndex(s: string, c: char): (r: nat)
    requires c in s
    ensures r < |s| && s[r] == c
    ensures c !in s[..r]
  {
    if s[0] == c then 0
    else
      assert s == [s[0]] + s[1..];
      var r := 1 + FirstIndex(s[1..], c);
      assert s[..r] == [s[0]] + s[1..][..r - 1];
      r
  }

  /** The fields glued back together with one separator between neighbours (`Array.prototype.join`). */
  function Join(fields: seq<string>, sep: char): string
  {
    if |fields| == 0 then ""
    else if |fields| == 1 then fields[0]
    else fields[0] + [sep] + Join(fields[1..], sep)
  }

  /**
   `String.prototype.split` with a one-character separator: the maximal runs
   between separators, including empty ones, so a string without the
   separator gives a single field.
   */
  function Split(s: string, sep: char): (r: seq<string>)
    ensures |r| > 0
    ensures forall i :: 0 <= i < |r| ==> sep !in r[i]
    ensures Join(r, sep) == s
    decreases |s|
  {
    if sep !in s then [s]
    else
      var i := FirstIndex(s, sep);
      var rest := Split(s[i + 1..], sep);
      assert ([s[..i]] + rest)[1..] == rest;
      assert s == s[..i] + [sep] + s[i + 1..];
      [s[..i]] + rest
  }

  /** Splitting the join of separator-free fields gives the fields back. */
  lemma {:induction false} SplitJoin(fields: seq<string>, sep: char)
    requires |fields| > 0
    requires forall i :: 0 <= i < |fields| ==> sep !in fields[i]
    ensures Split(Join(fields, sep), sep) == fields
  {
    if |fields| > 1 {
      var f := fields[0];
      var tail := Join(fields[1..], sep);
      var s := f + [sep] + tail;
      assert s[|f|] == sep;
      var i := FirstIndex(s, sep);
      assert i == |f| by {
        assert s[..|f|] == f;
      }
      assert s[..i] == f;
      assert s[i + 1..] == tail;
      SplitJoin(fields[1..], sep);
      assert fields == [f] + fields[1..];
    }
  }

  /** `header` reads `<scheme> <token><tail>`: the token is the second space-separated field. */
  ghost predicate SecondField(header: string, token: string)
  {
    exists scheme, tail ::
      && ' ' !in scheme
      && (tail == "" || tail[0] == ' ')
      && header == scheme + " " + token + tail
  }

  /** The token part of the header: the second space-separated field, if there is one. */
  function BearerToken(authorization: Option<string>): (r: Option<string>)
    ensures r.None? <==> authorization.None? || ' ' !in authorization.value
    ensures r.Some? ==> ' ' !in r.value && SecondField(authorization.value, r.value)
  {
    match authorization
    case None => None
    case Some(header) =>
      var fields := Split(header, ' ');
      if |fields| > 1 then
        SplitShape(header, fields);
        Some(fields[1])
      else
        assert header == fields[0];
        None
  }

  /** The first two fields of a join, written out around their separator. */
  lemma SplitShape(header: string, fields: seq<string>)
    requires |fields| > 1 && ' ' !in fields[0]
    requires header == Join(fields, ' ')
    ensures ' ' in header
    ensures SecondField(header, fields[1])
  {
    var scheme, token, rest := fields[0], fields[1], fields[1..];
    var tail: string;
    if |fields| == 2 {
      tail := "";
    } else {
      tail := [' '] + Join(fields[2..], ' ');
      assert rest[1..] == fields[2..];
    }
    assert Join(rest, ' ') == token + tail;
    assert header == scheme + [' '] + (token + tail);
    assert header[|scheme|] == ' ';
    assert ' ' !in scheme && (tail == "" || tail[0] == ' ') && header == scheme + " " + token + tail;
  }

  /** A well-formed `<scheme> <token>` header yields exactly its token. */
  lemma BearerTokenOfHeader(scheme: string, token: string)
    requires ' ' !in scheme && ' ' !in token
    ensures BearerToken(Some(scheme + " " + token)) == Some(token)
  {
    SplitJoin([scheme, token], ' ');
    assert Join([scheme, token], ' ') == scheme + " " + token;
  }

  /** JavaScript truthiness of the extracted token: present and not the empty string. */
  predicate Present(token: Option<string>)
  {
    token.Some? && token.value != ""
  }
}
