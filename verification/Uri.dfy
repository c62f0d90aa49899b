/** The path tokenizer and printer (src/uri.cc:26-81, include/uri.h). */
module UriClass {
  import opened Bytes

  type Text = seq<byte>
  type long = x: int | -0x8000_0000_0000_0000 <= x < 0x8000_0000_0000_0000

  const SLASH: byte := 47
  const MINUS: byte := 45

  datatype Kind = IntegerKind | StringKind

  /** uri_t: both vectors exist, the kind says which one is meant. */
  datatype Uri = Uri(kind: Kind, asString: seq<Text>, asInteger: seq<long>)

  const EMPTY_URI: Uri := Uri(IntegerKind, [], [])

  // ---------- strtok ----------

  /** strncpy from c_str(): what stands before the first zero byte. */
  function CString(s: Text): (r: Text)
    ensures 0 !in r
    ensures 0 !in s ==> r == s
  {
    if s == [] || s[0] == 0 then [] else [s[0]] + CString(s[1..])
  }

  function TokenEnd(s: Text): (n: nat)
    ensures n <= |s| && SLASH !in s[..n] && (n < |s| ==> s[n] == SLASH)
  {
    if s == [] || s[0] == SLASH then 0 else 1 + TokenEnd(s[1..])
  }

  /** The successive results of strtok with "/" as the delimiter. */
  function Tokens(s: Text): (r: seq<Text>)
    ensures forall i :: 0 <= i < |r| ==> r[i] != []
  {
    if s == [] then []
    else if s[0] == SLASH then Tokens(s[1..])
    else [s[..TokenEnd(s)]] + Tokens(s[TokenEnd(s)..])
  }

  predicate Clean(t: Text) {
    t != [] && SLASH !in t && 0 !in t
  }

  predicate AllClean(segments: seq<Text>) {
    forall i :: 0 <= i < |segments| ==> Clean(segments[i])
  }

  lemma {:induction false} TokensAreClean(s: Text)
    requires 0 !in s
    ensures AllClean(Tokens(s))
  {
    if s != [] {
      var n := TokenEnd(s);
      if s[0] == SLASH {
        TokensAreClean(s[1..]);
      } else {
        TokensAreClean(s[n..]);
        assert Clean(s[..n]);
      }
    }
  }

  // ---------- strtol and to_string ----------

  predicate Space(c: byte) {
    c == 32 || 9 <= c <= 13
  }

  predicate Digit(c: byte) {
    48 <= c <= 57
  }

  function DigitsValue(t: Text, sum: nat): (r: nat)
    ensures r >= sum
  {
    if t == [] || !Digit(t[0]) then sum else DigitsValue(t[1..], sum * 10 + (t[0] - 48))
  }

  function SkipSpaces(t: Text): Text {
    if t != [] && Space(t[0]) then SkipSpaces(t[1..]) else t
  }

  function Clamp(n: int): (r: long)
    ensures -0x8000_0000_0000_0000 <= n < 0x8000_0000_0000_0000 ==> r == n
    ensures n >= 0 ==> r >= 0
  {
    if n < -0x8000_0000_0000_0000 then -0x8000_0000_0000_0000
    else if n >= 0x8000_0000_0000_0000 then 0x7FFF_FFFF_FFFF_FFFF
    else n
  }

  /** strtol with base ten: spaces, a sign, digits; whatever follows is ignored. */
  function ParseLong(t: Text): long {
    var u := SkipSpaces(t);
    if u != [] && u[0] == MINUS then
      var magnitude: int := DigitsValue(u[1..], 0);
      Clamp(-magnitude)
    else if u != [] && u[0] == 43 then Clamp(DigitsValue(u[1..], 0))
    else Clamp(DigitsValue(u, 0))
  }

  function Decimal(n: nat): (t: Text)
    ensures t != [] && Digit(t[0])
    ensures forall i :: 0 <= i < |t| ==> Digit(t[i])
  {
    if n < 10 then [48 + n] else Decimal(n / 10) + [48 + n % 10]
  }

  /** std::to_string. */
  function PrintLong(n: long): Text {
    var value: int := n;
    if value < 0 then [MINUS] + Decimal(-value) else Decimal(value)
  }

  lemma {:induction false} DigitsConcat(a: Text, c: Text, sum: nat)
    requires forall i :: 0 <= i < |a| ==> Digit(a[i])
    ensures DigitsValue(a + c, sum) == DigitsValue(c, DigitsValue(a, sum))
  {
    if a == [] {
      assert a + c == c;
    } else {
      assert (a + c)[1..] == a[1..] + c;
      DigitsConcat(a[1..], c, sum * 10 + (a[0] - 48));
    }
  }

  lemma {:induction false} DecimalReadsBack(n: nat)
    ensures DigitsValue(Decimal(n), 0) == n
  {
    if n >= 10 {
      DecimalReadsBack(n / 10);
      DigitsConcat(Decimal(n / 10), [48 + n % 10], 0);
      assert [48 + n % 10][1..] == [];
      assert DigitsValue([48 + n % 10], n / 10) == n / 10 * 10 + n % 10;
    } else {
      assert [48 + n][1..] == [];
    }
  }

  /** Decimal printing is undone by strtol, for every value of a long. */
  lemma LongReadsBack(n: long)
    ensures ParseLong(PrintLong(n)) == n
  {
    var t, value: int := PrintLong(n), n;
    assert SkipSpaces(t) == t;
    DecimalReadsBack(if value < 0 then -value else value);
    if value < 0 {
      assert t[1..] == Decimal(-value);
    }
  }

  lemma PrintLongClean(n: long)
    ensures Clean(PrintLong(n))
    ensures Digit(PrintLong(n)[0]) <==> n >= 0
    ensures n < 0 ==> PrintLong(n)[0] == MINUS
  {
  }

  // ---------- path_to_uri and uri_to_path ----------

  /** ((c & 0xF0) ^ 0x30) == 0: the digits and the six characters behind them. */
  predicate IntegerStart(c: byte) {
    c / 16 == 3
  }

  function Longs(tokens: seq<Text>): (r: seq<long>)
    ensures |r| == |tokens|
    ensures forall i :: 0 <= i < |tokens| ==> r[i] == ParseLong(tokens[i])
  {
    seq(|tokens|, i requires 0 <= i < |tokens| => ParseLong(tokens[i]))
  }

  function PathToUri(path: Text): Option<Uri> {
    var tokens := Tokens(CString(path));
    if tokens == [] then None
    else if IntegerStart(tokens[0][0]) then Some(Uri(IntegerKind, [], Longs(tokens)))
    else Some(Uri(StringKind, tokens, []))
  }

  function JoinSegments(segments: seq<Text>): Text {
    if segments == [] then [] else [SLASH] + segments[0] + JoinSegments(segments[1..])
  }

  function Segments(u: Uri): (r: seq<Text>)
    ensures |r| == if u.kind.StringKind? then |u.asString| else |u.asInteger|
    ensures u.kind.IntegerKind? ==> forall i :: 0 <= i < |r| ==> r[i] == PrintLong(u.asInteger[i])
  {
    if u.kind.StringKind? then u.asString
    else seq(|u.asInteger|, i requires 0 <= i < |u.asInteger| => PrintLong(u.asInteger[i]))
  }

  function UriToPath(u: Uri): Text {
    JoinSegments(Segments(u))
  }

  lemma {:induction false} TokenEndAt(t: Text, rest: Text)
    requires SLASH !in t && (rest == [] || rest[0] == SLASH)
    ensures TokenEnd(t + rest) == |t|
  {
    if t == [] {
      assert t + rest == rest;
    } else {
      assert (t + rest)[1..] == t[1..] + rest && (t + rest)[0] == t[0];
      TokenEndAt(t[1..], rest);
    }
  }

  lemma TokenInFront(t: Text, rest: Text)
    requires Clean(t) && (rest == [] || rest[0] == SLASH)
    ensures Tokens([SLASH] + t + rest) == [t] + Tokens(rest)
  {
    var s := t + rest;
    TokenEndAt(t, rest);
    hide TokenEnd;
    assert s[0] == t[0] != SLASH && s[..|t|] == t && s[|t|..] == rest;
    assert Tokens(s) == [t] + Tokens(rest);
    var all := [SLASH] + t + rest;
    assert all[0] == SLASH && all[1..] == s;
  }

  lemma {:induction false} JoinThenTokens(segments: seq<Text>)
    requires AllClean(segments)
    ensures Tokens(JoinSegments(segments)) == segments
    ensures 0 !in JoinSegments(segments)
  {
    if segments != [] {
      var t, rest := segments[0], JoinSegments(segments[1..]);
      hide Tokens;
      JoinThenTokens(segments[1..]);
      assert Clean(t);
      TokenInFront(t, rest);
      assert [t] + segments[1..] == segments;
    } else {
      assert Tokens([]) == [];
    }
  }

  /** The URIs that survive printing: what the tokenizer can produce at all. */
  predicate Printable(u: Uri) {
    match u.kind
    case StringKind =>
      u.asInteger == [] && u.asString != [] && AllClean(u.asString) && !IntegerStart(u.asString[0][0])
    case IntegerKind =>
      u.asString == [] && u.asInteger != [] && u.asInteger[0] >= 0
  }

  lemma FirstLong(t: Text)
    requires t != [] && IntegerStart(t[0])
    ensures ParseLong(t) >= 0
  {
  }

  lemma ParsedIsPrintable(path: Text)
    requires PathToUri(path).Some?
    ensures Printable(PathToUri(path).value)
  {
    var tokens := Tokens(CString(path));
    TokensAreClean(CString(path));
    if IntegerStart(tokens[0][0]) {
      FirstLong(tokens[0]);
    }
  }

  lemma PrintableReadsBack(u: Uri)
    requires Printable(u)
    ensures PathToUri(UriToPath(u)) == Some(u)
  {
    var segments := Segments(u);
    if u.kind.IntegerKind? {
      forall i | 0 <= i < |segments|
        ensures Clean(segments[i]) && ParseLong(segments[i]) == u.asInteger[i]
      {
        PrintLongClean(u.asInteger[i]);
        LongReadsBack(u.asInteger[i]);
      }
      PrintLongClean(u.asInteger[0]);
      assert Longs(segments) == u.asInteger;
    }
    JoinThenTokens(segments);
  }

  /** Printing and reading a URI gives it back if and only if it is one of those. */
  lemma UriRoundTripExact(u: Uri)
    ensures PathToUri(UriToPath(u)) == Some(u) <==> Printable(u)
  {
    if Printable(u) {
      PrintableReadsBack(u);
    } else if PathToUri(UriToPath(u)) == Some(u) {
      ParsedIsPrintable(UriToPath(u));
    }
  }

  /** Reading and printing any path gives a normal form: a second time changes nothing. */
  lemma NormalFormIsIdempotent(path: Text)
    requires PathToUri(path).Some?
    ensures
      var normal := UriToPath(PathToUri(path).value);
      PathToUri(normal) == PathToUri(path) && UriToPath(PathToUri(normal).value) == normal
  {
    ParsedIsPrintable(path);
    PrintableReadsBack(PathToUri(path).value);
  }

  // ---------- the same in characters ----------

  /** k is where a stretch without slashes begins. */
  predicate Begins(s: Text, k: nat) {
    k < |s| && s[k] != 47 && (k == 0 || s[k - 1] == 47)
  }

  /** Where such stretches begin, from index k on. */
  function Beginnings(s: Text, k: nat): (r: seq<nat>)
    requires k <= |s|
    ensures forall i :: 0 <= i < |r| ==> k <= r[i] && Begins(s, r[i])
    ensures forall i, j :: 0 <= i < j < |r| ==> r[i] < r[j]
    ensures forall n: nat :: k <= n && Begins(s, n) ==> n in r
    decreases |s| - k
  {
    if k == |s| then [] else if Begins(s, k) then [k] + Beginnings(s, k + 1) else Beginnings(s, k + 1)
  }

  /** The end of the stretch that k lies in. */
  function EndFrom(s: Text, k: nat): (n: nat)
    requires k <= |s|
    ensures k <= n <= |s| && (n < |s| ==> s[n] == 47)
    ensures forall j :: k <= j < n ==> s[j] != 47
    decreases |s| - k
  {
    if k == |s| || s[k] == 47 then k else EndFrom(s, k + 1)
  }

  /** The maximal stretches of s without a slash that begin at k or later, in order. */
  function Stretches(s: Text, k: nat): (r: seq<Text>)
    requires k <= |s|
    ensures |r| == |Beginnings(s, k)|
    ensures forall i :: 0 <= i < |r| ==> r[i] == s[Beginnings(s, k)[i]..EndFrom(s, Beginnings(s, k)[i])]
  {
    var begins := Beginnings(s, k);
    seq(|begins|, i requires 0 <= i < |begins| => s[begins[i]..EndFrom(s, begins[i])])
  }

  lemma {:induction false} EndFromIsTokenEnd(s: Text, k: nat)
    requires k <= |s|
    ensures EndFrom(s, k) == k + TokenEnd(s[k..])
    decreases |s| - k
  {
    if k < |s| && s[k] != 47 {
      assert s[k..][0] == s[k] && s[k..][1..] == s[k + 1..];
      EndFromIsTokenEnd(s, k + 1);
    }
  }

  /** Inside a stretch nothing begins. */
  lemma {:induction false} NothingBegins(s: Text, k: nat, n: nat)
    requires 0 < k <= n <= |s| && s[k - 1] != 47
    requires forall j :: k <= j < n ==> s[j] != 47
    ensures Beginnings(s, k) == Beginnings(s, n)
    decreases n - k
  {
    if k < n {
      NothingBegins(s, k + 1, n);
    }
  }

  lemma StretchesSkip(s: Text, k: nat)
    requires k < |s| && s[k] == 47
    ensures Stretches(s, k) == Stretches(s, k + 1)
  {
    assert Beginnings(s, k) == Beginnings(s, k + 1);
    hide Beginnings, EndFrom;
  }

  lemma StretchesTurn(s: Text, k: nat)
    requires k < |s| && Begins(s, k)
    ensures k < EndFrom(s, k)
    ensures Stretches(s, k) == [s[k..EndFrom(s, k)]] + Stretches(s, EndFrom(s, k))
  {
    EndsLater(s, k);
    var n := EndFrom(s, k);
    NothingBegins(s, k + 1, n);
    assert Beginnings(s, k) == [k] + Beginnings(s, n);
    hide Beginnings, EndFrom;
  }

  lemma TokensTurn(s: Text, k: nat)
    requires k < |s|
    ensures s[k] == 47 ==> Tokens(s[k..]) == Tokens(s[k + 1..])
    ensures s[k] != 47 ==> Tokens(s[k..]) == [s[k..EndFrom(s, k)]] + Tokens(s[EndFrom(s, k)..])
  {
    var rest := s[k..];
    assert rest[0] == s[k] && rest[1..] == s[k + 1..];
    EndFromIsTokenEnd(s, k);
    var n := TokenEnd(rest);
    assert rest[n..] == s[k + n..] && rest[..n] == s[k..k + n];
    hide TokenEnd, EndFrom;
  }

  /** The tokens of strtok are those stretches. */
  lemma {:induction false} TokensAreStretches(s: Text, k: nat)
    requires k <= |s| && (k == 0 || s[k - 1] == 47 || k == |s| || s[k] == 47)
    ensures Tokens(s[k..]) == Stretches(s, k)
    decreases |s| - k
  {
    if k < |s| {
      hide Tokens, Stretches;
      TokensTurn(s, k);
      if s[k] == 47 {
        StretchesSkip(s, k);
        TokensAreStretches(s, k + 1);
      } else {
        StretchesTurn(s, k);
        TokensAreStretches(s, EndFrom(s, k));
      }
    }
  }

  lemma EndsLater(s: Text, k: nat)
    requires k < |s| && s[k] != 47
    ensures EndFrom(s, k) > k
  {
  }

  /** What strncpy copies: all bytes before the first zero. */
  lemma {:induction false} CStringExact(s: Text)
    ensures var n := |CString(s)|; n <= |s| && CString(s) == s[..n] && (n < |s| ==> s[n] == 0)
  {
    if s != [] && s[0] != 0 {
      CStringExact(s[1..]);
      var n := |CString(s[1..])|;
      assert s[..n + 1] == [s[0]] + s[1..][..n];
    }
  }

  /** The first byte that is no slash begins the first stretch. */
  lemma FirstBeginning(s: Text, k: nat)
    requires k < |s| && s[k] != 47 && forall j :: 0 <= j < k ==> s[j] == 47
    ensures Stretches(s, 0) != [] && Stretches(s, 0)[0] != [] && Stretches(s, 0)[0][0] == s[k]
  {
    var begins := Beginnings(s, 0);
    assert Begins(s, k) && k in begins;
    var i :| 0 <= i < |begins| && begins[i] == k;
    assert begins[0] <= k && Begins(s, begins[0]) && begins[0] == k;
    EndsLater(s, k);
  }

  lemma NoBeginning(s: Text)
    requires forall j :: 0 <= j < |s| ==> s[j] == 47
    ensures Stretches(s, 0) == []
  {
    var begins := Beginnings(s, 0);
    assert begins != [] ==> Begins(s, begins[0]);
  }

  /**
   What path_to_uri makes of any path: nothing if there are only slashes before the first zero byte; an
   integer URI if the first other byte is one of 0x30 to 0x3F; else the stretches between the slashes.
   */
  lemma PathExact(path: Text, k: nat)
    requires k <= |CString(path)| && (forall j :: 0 <= j < k ==> CString(path)[j] == 47)
    requires k < |CString(path)| ==> CString(path)[k] != 47
    ensures
      var s, u := CString(path), PathToUri(path);
      if k == |s| then u == None
      else if 0x30 <= s[k] <= 0x3F then u == Some(Uri(IntegerKind, [], Longs(Stretches(s, 0))))
      else u == Some(Uri(StringKind, Stretches(s, 0), []))
  {
    var s := CString(path);
    TokensAreStretches(s, 0);
    assert s[0..] == s;
    if k < |s| {
      FirstBeginning(s, k);
      assert s[k] / 16 == 3 <==> 0x30 <= s[k] <= 0x3F;
    } else {
      NoBeginning(s);
    }
    hide CString, Tokens, Stretches, Longs;
  }

  /** "/a" is a string URI, and "/3/0" one of integers; both are printed as they were read. */
  lemma PathExamples()
    ensures PathToUri([47, 97]) == Some(Uri(StringKind, [[97]], []))
    ensures PathToUri([47, 51, 47, 48]) == Some(Uri(IntegerKind, [], [3, 0]))
    ensures UriToPath(Uri(StringKind, [[97]], [])) == [47, 97]
    ensures UriToPath(Uri(IntegerKind, [], [3, 0])) == [47, 51, 47, 48]
  {
    PrintExamples();
    UriRoundTripExact(Uri(StringKind, [[97]], []));
    UriRoundTripExact(Uri(IntegerKind, [], [3, 0]));
    hide UriToPath, PathToUri;
  }

  lemma PrintExamples()
    ensures UriToPath(Uri(StringKind, [[97]], [])) == [47, 97]
    ensures UriToPath(Uri(IntegerKind, [], [3, 0])) == [47, 51, 47, 48]
  {
    assert PrintLong(3) == [51] && PrintLong(0) == [48];
    hide PrintLong;
    assert Segments(Uri(IntegerKind, [], [3, 0])) == [[51], [48]];
    TwoSegments([51], [48]);
    OneSegment([97]);
  }

  lemma OneSegment(a: Text)
    ensures JoinSegments([a]) == [47] + a
  {
    assert [a][1..] == [];
    assert JoinSegments([]) == [];
  }

  lemma TwoSegments(a: Text, c: Text)
    ensures JoinSegments([a, c]) == [47] + a + [47] + c
  {
    OneSegment(c);
    assert [a, c][1..] == [c];
  }

  // ---------- strtol on any text ----------

  predicate AllDigits(t: Text) {
    forall i :: 0 <= i < |t| ==> 48 <= t[i] <= 57
  }

  lemma {:induction false} SpacesSkipped(spaces: Text, t: Text)
    requires forall i :: 0 <= i < |spaces| ==> spaces[i] in [9, 10, 11, 12, 13, 32]
    requires t == [] || t[0] !in [9, 10, 11, 12, 13, 32]
    ensures SkipSpaces(spaces + t) == t
  {
    if spaces == [] {
      assert spaces + t == t;
    } else {
      assert (spaces + t)[0] == spaces[0] && (spaces + t)[1..] == spaces[1..] + t;
      SpacesSkipped(spaces[1..], t);
    }
  }

  /** The value of a string of digits, last digit first. */
  function Value(t: Text): nat
    requires AllDigits(t)
  {
    if t == [] then 0
    else
      var last: int := t[|t| - 1];
      10 * Value(t[..|t| - 1]) + last - 48
  }

  lemma {:induction false} DigitsAreValue(t: Text, rest: Text)
    requires AllDigits(t) && (rest == [] || rest[0] < 48 || 57 < rest[0])
    ensures DigitsValue(t + rest, 0) == Value(t)
  {
    DigitsConcat(t, rest, 0);
    if t != [] {
      var front, last := t[..|t| - 1], [t[|t| - 1]];
      DigitsAreValue(front, []);
      assert front + [] == front && front + last == t && last[1..] == [];
      DigitsConcat(front, last, 0);
      assert DigitsValue([], 0) == 0;
    }
  }

  /**
   strtol skips spaces, takes one sign, reads the digits up to the first other character, and
   saturates; without digits the value is zero.
   */
  lemma StrtolExact(spaces: Text, sign: Text, digits: Text, rest: Text)
    requires forall i :: 0 <= i < |spaces| ==> spaces[i] in [9, 10, 11, 12, 13, 32]
    requires sign in [[], [43], [45]] && AllDigits(digits)
    requires rest == [] || rest[0] < 48 || 57 < rest[0]
    requires sign == [] && digits == [] && rest != [] ==> rest[0] !in [9, 10, 11, 12, 13, 32, 43, 45]
    ensures
      var n: int := Value(digits);
      ParseLong(spaces + (sign + (digits + rest))) as int ==
        if sign == [45] then (if n <= 0x8000_0000_0000_0000 then -n else -0x8000_0000_0000_0000)
        else if n < 0x8000_0000_0000_0000 then n else 0x7FFF_FFFF_FFFF_FFFF
  {
    var t := digits + rest;
    var u := sign + t;
    DigitsAreValue(digits, rest);
    assert sign == [] ==> u == t;
    assert sign != [] ==> u[0] == sign[0] && u[1..] == t;
    assert t != [] ==> t[0] == if digits != [] then digits[0] else rest[0];
    SpacesSkipped(spaces, u);
    hide DigitsValue, SkipSpaces, Value;
  }

  class UriObject {
    var path: Text
    var uri: Uri

    constructor FromPath(path: Text)
      ensures this.path == path && uri == EMPTY_URI
    {
      this.path, uri := path, EMPTY_URI;
    }

    constructor FromUri(u: Uri)
      ensures uri == u && path == UriToPath(u)
    {
      path, uri := [], u;
      new;
      PrintPath();
      assert [] + UriToPath(u) == UriToPath(u);
    }

    /** path_to_uri of a freshly constructed object; it fails exactly when the path has no token. */
    method ReadPath() returns (ok: bool)
      requires uri == EMPTY_URI
      modifies `uri
      ensures ok <==> PathToUri(path).Some?
      ensures uri == if ok then PathToUri(path).value else EMPTY_URI
    {
      ghost var s := CString(path);
      var rest := CString(path);
      var token;
      TokensAreClean(s);
      token, rest := NextToken(rest);
      if token == [] {
        return false;
      }
      var integer := IntegerStart(token[0]);
      uri := uri.(kind := if integer then IntegerKind else StringKind);
      ghost var done: seq<Text> := [];
      while token != []
        invariant done + (if token == [] then [] else [token]) + Tokens(rest) == Tokens(s)
        invariant token == [] ==> Tokens(rest) == []
        invariant uri == if integer then Uri(IntegerKind, [], Longs(done)) else Uri(StringKind, done, [])
        decreases |rest| + |token|
      {
        done := done + [token];
        if integer {
          uri := uri.(asInteger := uri.asInteger + [ParseLong(token)]);
        } else {
          uri := uri.(asString := uri.asString + [token]);
        }
        token, rest := NextToken(rest);
      }
      return true;
    }

    /** uri_to_path appends to what the path holds. */
    method PrintPath()
      modifies `path
      ensures path == old(path) + UriToPath(uri)
    {
      var segments := Segments(uri);
      var i := 0;
      while i < |segments|
        invariant i <= |segments|
        invariant path + JoinSegments(segments[i..]) == old(path) + JoinSegments(segments)
      {
        ghost var before := path;
        path := path + [SLASH];
        path := path + segments[i];
        assert segments[i..][0] == segments[i] && segments[i..][1..] == segments[i + 1..];
        assert before + ([SLASH] + segments[i] + JoinSegments(segments[i + 1..]))
            == path + JoinSegments(segments[i + 1..]);
        i := i + 1;
      }
    }
  }

  /** One call of strtok: the next token, empty when there is none, and the text behind it. */
  method NextToken(s: Text) returns (token: Text, rest: Text)
    ensures Tokens(s) == (if token == [] then [] else [token]) + Tokens(rest)
    ensures token == [] ==> rest == []
    ensures |token| + |rest| <= |s|
  {
    rest := s;
    while rest != [] && rest[0] == SLASH
      invariant |rest| <= |s| && Tokens(rest) == Tokens(s)
      decreases |rest|
    {
      rest := rest[1..];
    }
    token := [];
    var begin := rest;
    var n := 0;
    while n < |begin| && begin[n] != SLASH
      invariant n <= |begin| && SLASH !in begin[..n]
    {
      n := n + 1;
    }
    TokenEndAt(begin[..n], begin[n..]);
    assert begin == begin[..n] + begin[n..];
    token, rest := begin[..n], begin[n..];
    assert [token] + Tokens(rest) == Tokens(begin) || begin == [];
  }
}
