/** The two string helpers of the awards aggregator: the title canonicaliser
    used for deduplication keys, brand ownership and image lookup, and the
    reading of an `srcset` attribute. */
module AwardTitles {
  import opened Wrappers
  import opened JsText

  /** `s` starts with `amp;` in some ASCII letter case. */
  predicate AmpTail(s: string) {
    |s| >= 4 && LowerChar(s[0]) == 'a' && LowerChar(s[1]) == 'm' && LowerChar(s[2]) == 'p' && s[3] == ';'
  }

  /** `s` starts with `&amp;` in some ASCII letter case. */
  predicate AmpAt(s: string) {
    |s| >= 5 && s[0] == '&' && AmpTail(s[1..])
  }

  /** `s.replace(/&amp;/gi, "&")`: every `&amp;`, in any ASCII letter case,
      becomes `&`, scanning left to right without overlap. */
  function DecodeAmp(s: string): (r: string)
    ensures '&' !in s ==> r == s
    decreases |s|
  {
    if AmpAt(s) then
      "&" + DecodeAmp(s[5..])
    else if s == [] then []
    else [s[0]] + DecodeAmp(s[1..])
  }

  /** `s.replace(/&/g, "and")`. */
  function AmpToAnd(s: string): (r: string)
    ensures '&' !in r
    ensures '&' !in s ==> r == s
  {
    if s == [] then []
    else (if s[0] == '&' then "and" else [s[0]]) + AmpToAnd(s[1..])
  }

  /** Every `\s` character is a plain space and no two of them are adjacent. */
  predicate SingleSpaced(s: string) {
    forall i :: 0 <= i < |s| && IsSpace(s[i]) ==> s[i] == ' ' && (i + 1 < |s| ==> !IsSpace(s[i + 1]))
  }

  /** `s.replace(/\s+/g, " ")`: each maximal run of `\s` becomes one space. */
  function CollapseSpaces(s: string): (r: string)
    ensures SingleSpaced(r)
    ensures '&' !in s ==> '&' !in r
    ensures r != [] && IsSpace(r[0]) ==> s != [] && IsSpace(s[0])
    decreases |s|
  {
    if s == [] then []
    else if IsSpace(s[0]) then
      var t := TrimStart(s);
      assert |t| < |s|;
      assert '&' !in s ==> '&' !in t by {
        assert t == s[|s| - |t|..];
      }
      [' '] + CollapseSpaces(t)
    else [s[0]] + CollapseSpaces(s[1..])
  }

  /** `normalizeTitle`: `""` for a missing or empty title; otherwise `&amp;`
      decoded, `&` spelt "and", whitespace runs collapsed, trimmed and lower-cased. */
  function NormalizeTitle(o: Option<string>): (r: string)
    ensures !Truthy(o) ==> r == ""
    ensures Normalized(r)
  {
    if !Truthy(o) then ""
    else
      var c := CollapseSpaces(AmpToAnd(DecodeAmp(o.value)));
      TrimKeepsShape(c);
      ToLowerKeepsShape(Trim(c));
      ToLower(Trim(c))
  }

  /** The shape of a canonical title: no `&`, no surrounding or doubled
      whitespace, only plain spaces, and no upper-case ASCII letter. */
  predicate Normalized(t: string) {
    && '&' !in t
    && (t == [] || (!IsSpace(t[0]) && !IsSpace(t[|t| - 1])))
    && SingleSpaced(t)
    && NoUpper(t)
  }

  /** A substring of a single-spaced string is single-spaced. */
  lemma SingleSpacedSlice(s: string, k: nat, n: nat)
    requires SingleSpaced(s) && k + n <= |s|
    ensures SingleSpaced(s[k..k + n])
  {
    var t := s[k..k + n];
    forall i | 0 <= i < |t| && IsSpace(t[i])
      ensures t[i] == ' ' && (i + 1 < |t| ==> !IsSpace(t[i + 1]))
    {
      assert t[i] == s[k + i];
      if i + 1 < |t| { assert t[i + 1] == s[k + i + 1]; }
    }
  }

  /** A substring of a string free of `&` and single-spaced is both too. */
  lemma SliceKeepsShape(s: string, k: nat, n: nat)
    requires '&' !in s && SingleSpaced(s) && k + n <= |s|
    ensures '&' !in s[k..k + n] && SingleSpaced(s[k..k + n])
  {
    SingleSpacedSlice(s, k, n);
    var t := s[k..k + n];
    forall i | 0 <= i < |t| ensures t[i] != '&' {
      assert t[i] == s[k + i];
    }
  }

  /** Trimming keeps a string free of `&` and single-spaced. */
  lemma TrimKeepsShape(c: string)
    requires '&' !in c && SingleSpaced(c)
    ensures '&' !in Trim(c) && SingleSpaced(Trim(c))
  {
    SliceKeepsShape(c, |c| - |TrimStart(c)|, |Trim(c)|);
  }

  /** Lower-casing keeps a string free of `&`, single-spaced and trimmed. */
  lemma ToLowerKeepsShape(t: string)
    requires '&' !in t && SingleSpaced(t) && (t == [] || (!IsSpace(t[0]) && !IsSpace(t[|t| - 1])))
    ensures Normalized(ToLower(t))
  {
    var r := ToLower(t);
    assert '&' !in r by {
      forall i | 0 <= i < |r| ensures r[i] != '&' {
        assert t[i] != '&';
      }
    }
    assert SingleSpaced(r) by {
      forall i | 0 <= i < |r| && IsSpace(r[i])
        ensures r[i] == ' ' && (i + 1 < |r| ==> !IsSpace(r[i + 1]))
      {
        assert IsSpace(t[i]) && r[i] == LowerChar(t[i]);
      }
    }
  }

  /** Collapsing a single-spaced string changes nothing. */
  lemma {:induction false} CollapseSingleSpaced(s: string)
    requires SingleSpaced(s)
    ensures CollapseSpaces(s) == s
    decreases |s|
  {
    if s != [] {
      SingleSpacedSlice(s, 1, |s| - 1);
      assert s[1..1 + (|s| - 1)] == s[1..];
      CollapseSingleSpaced(s[1..]);
      CollapseStep(s);
    }
  }

  /** One step of `CollapseSingleSpaced`: a single-spaced string collapses to
      itself once its tail does. */
  lemma CollapseStep(s: string)
    requires s != [] && CollapseSpaces(s[1..]) == s[1..]
    requires IsSpace(s[0]) ==> s[0] == ' ' && (|s| == 1 || !IsSpace(s[1]))
    ensures CollapseSpaces(s) == s
  {
    if IsSpace(s[0]) {
      TrimStartOneSpace(s);
    }
    assert s == [s[0]] + s[1..];
  }

  /** A lone leading space followed by a non-space is all `TrimStart` removes. */
  lemma TrimStartOneSpace(s: string)
    requires s != [] && IsSpace(s[0]) && (|s| == 1 || !IsSpace(s[1]))
    ensures TrimStart(s) == s[1..]
  {
    assert s[1..] == [] || s[1..][0] == s[1];
  }

  /** A canonical title normalises to itself. */
  lemma NormalizedFixpoint(t: string)
    requires Normalized(t)
    ensures NormalizeTitle(Some(t)) == t
  {
    if t != [] {
      CollapseSingleSpaced(t);
      TrimFixpoint(t);
      ToLowerFixpoint(t);
    }
  }

  /** `normalizeTitle` is idempotent. */
  lemma NormalizeIdempotent(o: Option<string>)
    ensures NormalizeTitle(Some(NormalizeTitle(o))) == NormalizeTitle(o)
  {
    NormalizedFixpoint(NormalizeTitle(o));
  }

  /** Text before the first `&` passes through `DecodeAmp` unchanged. */
  lemma {:induction false} DecodeAmpPrefix(u: string, v: string)
    requires '&' !in u
    ensures DecodeAmp(u + v) == u + DecodeAmp(v)
    decreases |u|
  {
    if u == [] {
      assert u + v == v;
    } else {
      var s, w := u + v, u[1..];
      assert s[0] == u[0] && s[1..] == w + v;
      DecodeAmpStep(s);
      DecodeAmpPrefix(w, v);
      ConsAppend(u[0], w, DecodeAmp(v));
      assert [u[0]] + w == u;
    }
  }

  lemma ConsAppend(x: char, w: string, d: string)
    ensures [x] + (w + d) == ([x] + w) + d
  {
  }

  /** A character other than `&` is copied and decoding carries on after it. */
  lemma DecodeAmpStep(s: string)
    requires s != [] && s[0] != '&'
    ensures DecodeAmp(s) == [s[0]] + DecodeAmp(s[1..])
  {
    assert !AmpAt(s);
  }

  /** An `&amp;` in any letter case becomes `&`. */
  lemma {:induction false} DecodeAmpReplaces(u: string, a: string, v: string)
    requires '&' !in u && |a| == 5 && ToLower(a) == "&amp;"
    ensures DecodeAmp(u + a + v) == u + "&" + DecodeAmp(v)
  {
    var s := a + v;
    assert s[..5] == a && s[5..] == v;
    assert AmpAt(s) by {
      assert LowerChar(a[1]) == ToLower(a)[1] && LowerChar(a[2]) == ToLower(a)[2];
      assert LowerChar(a[3]) == ToLower(a)[3] && LowerChar(a[4]) == ToLower(a)[4];
      assert LowerChar(a[0]) == ToLower(a)[0];
    }
    assert u + a + v == u + s;
    DecodeAmpPrefix(u, s);
  }

  /** An `&` that does not start an `&amp;` is kept. */
  lemma {:induction false} DecodeAmpKeepsLoneAmp(u: string, v: string)
    requires '&' !in u && !AmpTail(v)
    ensures DecodeAmp(u + "&" + v) == u + "&" + DecodeAmp(v)
  {
    var s := "&" + v;
    assert s[0] == '&' && s[1..] == v;
    assert !AmpAt(s);
    var d := DecodeAmp(v);
    assert DecodeAmp(s) == "&" + d;
    assert u + "&" + v == u + s;
    DecodeAmpPrefix(u, s);
    assert u + ("&" + d) == u + "&" + d by {
      var amp := "&";
      assert |u + (amp + d)| == |u + amp + d|;
      forall i | 0 <= i < |u + amp + d| ensures (u + (amp + d))[i] == (u + amp + d)[i] {
      }
    }
  }

  /** `AmpToAnd` works character by character. */
  lemma {:induction false} AmpToAndAppend(a: string, b: string)
    ensures AmpToAnd(a + b) == AmpToAnd(a) + AmpToAnd(b)
    decreases |a|
  {
    if a == [] {
      assert a + b == b;
    } else {
      assert (a + b)[0] == a[0];
      assert (a + b)[1..] == a[1..] + b;
      AmpToAndAppend(a[1..], b);
    }
  }

  /** Each `&` is spelt "and" and every other character is kept, wherever it stands. */
  lemma {:induction false} AmpToAndReplaces(u: string, c: char, v: string)
    ensures AmpToAnd(u + [c] + v) == AmpToAnd(u) + (if c == '&' then "and" else [c]) + AmpToAnd(v)
  {
    AmpToAndAppend(u + [c], v);
    AmpToAndAppend(u, [c]);
    assert AmpToAnd([c]) == (if c == '&' then "and" else [c]) by {
      assert [c][0] == c && [c][1..] == [];
    }
  }

  /** Collapsing keeps the characters outside the `\s` class, in order. */
  lemma {:induction false} CollapseKeepsText(s: string)
    ensures NonSpace(CollapseSpaces(s)) == NonSpace(s)
    decreases |s|
  {
    if s != [] {
      if IsSpace(s[0]) {
        var t := TrimStart(s);
        TrimStartKeepsText(s);
        CollapseKeepsText(t);
        assert ([' '] + CollapseSpaces(t))[1..] == CollapseSpaces(t);
      } else {
        CollapseKeepsText(s[1..]);
        assert ([s[0]] + CollapseSpaces(s[1..]))[1..] == CollapseSpaces(s[1..]);
      }
    }
  }

  /** Every character of `w` is whitespace. */
  predicate AllSpace(w: string)
    decreases |w|
  {
    w == [] || (IsSpace(w[0]) && AllSpace(w[1..]))
  }

  lemma {:induction false} TrimStartRun(w: string, v: string)
    requires AllSpace(w) && (v == [] || !IsSpace(v[0]))
    ensures TrimStart(w + v) == v
    decreases |w|
  {
    if w == [] {
      assert w + v == v;
    } else {
      assert (w + v)[0] == w[0];
      assert (w + v)[1..] == w[1..] + v;
      TrimStartRun(w[1..], v);
    }
  }

  /** A whole run of whitespace becomes one space. */
  lemma CollapseRun(w: string, v: string)
    requires w != [] && AllSpace(w) && (v == [] || !IsSpace(v[0]))
    ensures CollapseSpaces(w + v) == " " + CollapseSpaces(v)
  {
    TrimStartRun(w, v);
    assert (w + v)[0] == w[0];
  }

  /** Canonicalising keeps a title's text: apart from whitespace, the result
      is the title with `&amp;` decoded and `&` spelt "and", lower-cased. */
  lemma NormalizeKeepsText(t: string)
    requires t != ""
    ensures NonSpace(NormalizeTitle(Some(t))) == ToLower(NonSpace(AmpToAnd(DecodeAmp(t))))
  {
    var a := AmpToAnd(DecodeAmp(t));
    var c := CollapseSpaces(a);
    CollapseKeepsText(a);
    TrimKeepsText(c);
    ToLowerKeepsText(Trim(c));
  }

  /** The first space-separated token of `t` (`t.split(" ")[0]`). */
  function FirstToken(t: string): (r: string)
    ensures ' ' !in r
    ensures forall c :: c in r ==> c in t
  {
    SplitPiecesIn(t, ' ', 0);
    Split(t, ' ')[0]
  }

  /** The last `sep`-separated piece of `s` (`s.split(sep).pop()`). */
  function LastPiece(s: string, sep: char): (r: string)
    ensures sep !in r
  {
    var parts := Split(s, sep);
    parts[|parts| - 1]
  }

  /** `getBestSrcFromSrcset`: `undefined` for a missing or empty attribute;
      otherwise the first space-separated token of the trimmed last
      comma-separated candidate. */
  function BestSrc(srcset: Option<string>): (r: Option<string>)
    ensures r.None? <==> !Truthy(srcset)
    ensures r.Some? ==> ' ' !in r.value && ',' !in r.value
  {
    if !Truthy(srcset) then None
    else
      var last := LastPiece(srcset.value, ',');
      var t := Trim(last);
      TrimKeepsOut(last, ',');
      Some(FirstToken(t))
  }

  /** Trimming brings in no character the string did not hold. */
  lemma TrimKeepsOut(s: string, ch: char)
    requires ch !in s
    ensures ch !in Trim(s)
  {
    var k := |s| - |TrimStart(s)|;
    var t := Trim(s);
    forall i | 0 <= i < |t| ensures t[i] != ch {
      assert t[i] == s[k + i];
    }
  }

  /** Every character of a piece of a split occurs in the input. */
  lemma {:induction false} SplitPiecesIn(s: string, sep: char, i: nat)
    requires i < |Split(s, sep)|
    ensures forall c :: c in Split(s, sep)[i] ==> c in s
    decreases |s|
  {
    if s != [] {
      var rest := Split(s[1..], sep);
      if s[0] == sep {
        if i > 0 { SplitPiecesIn(s[1..], sep, i - 1); }
      } else {
        SplitPiecesIn(s[1..], sep, i);
        if i == 0 {
          forall c | c in [s[0]] + rest[0] ensures c in s {
            if c != s[0] { assert c in s[1..]; }
          }
        }
      }
    }
  }

  /** Trimming the end of a string never cuts into a prefix that ends in a non-space. */
  lemma TrimEndKeepsPrefix(url: string, rest: string)
    requires url != [] && !IsSpace(url[|url| - 1])
    ensures |TrimEnd(url + rest)| >= |url|
    ensures TrimEnd(url + rest)[..|url|] == url
  {
    var last := url + rest;
    assert last[|url| - 1] == url[|url| - 1];
  }

  /** Trimming a URL free of whitespace followed by nothing or a space leaves
      the URL followed by nothing or a space. */
  lemma TrimUrlThenSpace(url: string, rest: string) returns (x: string)
    requires url != [] && !IsSpace(url[0]) && !IsSpace(url[|url| - 1])
    requires rest == [] || rest[0] == ' '
    ensures Trim(url + rest) == url + x
    ensures x == [] || x[0] == ' '
  {
    var last := url + rest;
    assert last[0] == url[0];
    TrimNoLeading(last);
    TrimEndKeepsPrefix(url, rest);
    var t := TrimEnd(last);
    x := t[|url|..];
    PrefixThenRest(t, url);
    if x != [] {
      assert x[0] == t[|url|] == last[|url|] == rest[0];
    }
  }

  /** A string that starts with a non-space is trimmed at its end only. */
  lemma TrimNoLeading(s: string)
    requires s != [] && !IsSpace(s[0])
    ensures Trim(s) == TrimEnd(s)
  {
  }

  /** A string that starts with `p` is `p` followed by the rest. */
  lemma PrefixThenRest(t: string, p: string)
    requires |p| <= |t| && t[..|p|] == p
    ensures t == p + t[|p|..]
  {
  }

  /** The first token of a space-free word followed by nothing or a space is the word. */
  lemma FirstTokenOfWord(url: string, x: string)
    requires ' ' !in url
    requires x == [] || x[0] == ' '
    ensures FirstToken(url + x) == url
  {
    SplitPrepend(url, x, ' ');
    assert Split(x, ' ')[0] == "" by {
      if x != [] {
        assert Split(x, ' ') == [""] + Split(x[1..], ' ');
      }
    }
    assert url + "" == url;
  }

  /** For a srcset written as comma-joined candidates whose last one starts with
      a URL (no space in it, no whitespace at its ends) followed by nothing or a
      space, the chosen source is that URL. */
  lemma BestSrcOfCandidates(cands: seq<string>, url: string, rest: string)
    requires |cands| >= 1 && forall c :: c in cands ==> ',' !in c
    requires cands[|cands| - 1] == url + rest
    requires url != [] && ' ' !in url && !IsSpace(url[0]) && !IsSpace(url[|url| - 1])
    requires rest == [] || rest[0] == ' '
    ensures BestSrc(Some(Join(cands, ','))) == Some(url)
  {
    FirstTokenOfUrl(url, rest);
    BestSrcOfJoin(cands);
  }

  /** Comma-joining candidates that hold no comma, the last of them non-empty,
      gives a srcset whose chosen source comes from that last candidate. */
  lemma BestSrcOfJoin(cands: seq<string>)
    requires |cands| >= 1 && forall c :: c in cands ==> ',' !in c
    requires cands[|cands| - 1] != []
    ensures BestSrc(Some(Join(cands, ','))) == Some(FirstToken(Trim(cands[|cands| - 1])))
  {
    var s := Join(cands, ',');
    JoinLongerThanLast(cands, ',');
    SplitJoin(cands, ',');
    BestSrcOfPieces(s, cands);
  }

  /** The chosen source of a non-empty srcset comes from its last comma-separated piece. */
  lemma BestSrcOfPieces(s: string, parts: seq<string>)
    requires s != [] && Split(s, ',') == parts
    ensures BestSrc(Some(s)) == Some(FirstToken(Trim(parts[|parts| - 1])))
  {
  }

  /** A joined string is at least as long as its last piece. */
  lemma {:induction false} JoinLongerThanLast(parts: seq<string>, sep: char)
    requires |parts| >= 1
    ensures |Join(parts, sep)| >= |parts[|parts| - 1]|
    decreases |parts|
  {
    if |parts| > 1 {
      JoinLongerThanLast(parts[1..], sep);
    }
  }

  /** A URL followed by nothing or a space trims and tokenises to the URL. */
  lemma FirstTokenOfUrl(url: string, rest: string)
    requires url != [] && ' ' !in url && !IsSpace(url[0]) && !IsSpace(url[|url| - 1])
    requires rest == [] || rest[0] == ' '
    ensures FirstToken(Trim(url + rest)) == url
  {
    var x := TrimUrlThenSpace(url, rest);
    FirstTokenOfWord(url, x);
  }

}
