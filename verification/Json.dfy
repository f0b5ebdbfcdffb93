/**
 JSON values as the config and logging code sees them, addressed by paths of
 reference tokens, and the JSON pointer text of a path (RFC 6901).

 Dictionary equality ignores key order, so objects are maps; the order in which
 a dictionary lists its keys is given separately, by a `KeyOrder`.
 */
module Json {
  import opened Options

  datatype Json =
    | Null
    | Bool(b: bool)
    | Int(n: int)
    | Real(r: real)
    | Str(s: string)
    | Arr(items: seq<Json>)
    | Obj(fields: map<string, Json>)

  type Path = seq<string>

  // ------------------------------------------------------- decimal indices

  function Digit(n: nat): char
    requires n < 10
  {
    '0' + n as char
  }

  /** The text of a list index. */
  function Decimal(n: nat): string {
    if n < 10 then [Digit(n)] else Decimal(n / 10) + [Digit(n % 10)]
  }

  predicate IsDigits(s: string) {
    forall i :: 0 <= i < |s| ==> '0' <= s[i] <= '9'
  }

  function Value(s: string): nat
    requires IsDigits(s)
  {
    if s == "" then 0 else 10 * Value(s[..|s| - 1]) + (s[|s| - 1] - '0') as nat
  }

  /** Section 4 of RFC 6901: digits without a leading zero. */
  predicate IsIndex(s: string) {
    s != "" && IsDigits(s) && (|s| > 1 ==> s[0] != '0')
  }

  lemma {:induction false} DecimalRoundTrip(n: nat)
    ensures IsIndex(Decimal(n)) && Value(Decimal(n)) == n
    ensures n > 0 ==> Decimal(n)[0] != '0'
  {
    if n >= 10 {
      DecimalRoundTrip(n / 10);
      var s := Decimal(n);
      assert s[..|s| - 1] == Decimal(n / 10);
    }
  }

  lemma {:induction false} IndexRoundTrip(s: string)
    requires IsIndex(s)
    ensures Decimal(Value(s)) == s
    ensures s[0] != '0' ==> Value(s) > 0
  {
    var init := s[..|s| - 1];
    if init == "" {
      assert Value(init) == 0;
    } else {
      IndexRoundTrip(init);
    }
  }

  // ------------------------------------------------------------- addressing

  /** The value one token below a container. */
  function Child(j: Json, tok: string): (r: Option<Json>)
    ensures r.Some? ==> r.value < j
  {
    match j
    case Obj(fields) => if tok in fields then Some(fields[tok]) else None
    case Arr(items) => if IsIndex(tok) && Value(tok) < |items| then Some(items[Value(tok)]) else None
    case _ => None
  }

  /** The value a path names, if there is one. */
  function Lookup(j: Json, p: Path): Option<Json> {
    if p == [] then Some(j)
    else match Child(j, p[0])
      case None => None
      case Some(c) => Lookup(c, p[1..])
  }

  type KeyOrder = (Path, map<string, Json>) -> seq<string>

  ghost predicate Lists(ks: seq<string>, m: map<string, Json>) {
    && (forall k :: k in ks <==> k in m)
    && (forall i, j :: 0 <= i < j < |ks| ==> ks[i] != ks[j])
  }

  /** Each dictionary, at its place in the document, lists its keys in some fixed order. */
  ghost predicate Enumerates(ord: KeyOrder) {
    forall p, m :: Lists(ord(p, m), m)
  }

  // ---------------------------------------------------------- JSON pointers

  /** s.replace(c, r) for a one-character pattern. */
  function Replace(s: string, c: char, r: string): string {
    if s == "" then "" else (if s[0] == c then r else [s[0]]) + Replace(s[1..], c, r)
  }

  /** `~` first, then `/`. */
  function Escape(tok: string): string {
    Replace(Replace(tok, '~', "~0"), '/', "~1")
  }

  /** Replace every occurrence of the two characters `~d` by `c`. */
  function Unreplace(s: string, d: char, c: char): string {
    if |s| < 2 then s
    else if s[0] == '~' && s[1] == d then [c] + Unreplace(s[2..], d, c)
    else [s[0]] + Unreplace(s[1..], d, c)
  }

  /** Section 4 of RFC 6901: `~1` first, then `~0`. */
  function Unescape(s: string): string {
    Unreplace(Unreplace(s, '1', '/'), '0', '~')
  }

  function Encode(p: Path): string {
    if p == [] then "" else "/" + Escape(p[0]) + Encode(p[1..])
  }

  /** The tokens of the text after a leading slash, still escaped. */
  function Segments(s: string): (r: seq<string>)
    ensures |r| > 0
  {
    if s == "" then [""]
    else if s[0] == '/' then [""] + Segments(s[1..])
    else var r := Segments(s[1..]); [[s[0]] + r[0]] + r[1..]
  }

  function Decode(s: string): Path {
    if s == "" then [] else UnescapeAll(Segments(s[1..]))
  }

  function UnescapeAll(segs: seq<string>): Path {
    if segs == [] then [] else [Unescape(segs[0])] + UnescapeAll(segs[1..])
  }

  /** One character at a time, escaping writes `~0`, `~1` or the character itself. */
  function EscapedChar(c: char): string {
    if c == '~' then "~0" else if c == '/' then "~1" else [c]
  }

  lemma EscapeStep(tok: string)
    requires tok != ""
    ensures Escape(tok) == EscapedChar(tok[0]) + Escape(tok[1..])
  {
    var rest := Replace(tok[1..], '~', "~0");
    if tok[0] == '~' {
      var s := "~0" + rest;
      assert Replace(tok, '~', "~0") == s;
      assert s[1..] == "0" + rest && s[1..][1..] == rest;
      assert Replace(s, '/', "~1") == ['~'] + Replace(s[1..], '/', "~1");
      assert Replace(s[1..], '/', "~1") == ['0'] + Replace(rest, '/', "~1");
    } else {
      var s := [tok[0]] + rest;
      assert Replace(tok, '~', "~0") == s;
      assert s[1..] == rest;
    }
  }

  /** Escaping spells a token character by character, as section 3 of RFC 6901 says. */
  lemma {:induction false} EscapeSpells(tok: string, c: char)
    ensures Escape("") == ""
    ensures Escape([c] + tok) == (if c == '~' then "~0" else if c == '/' then "~1" else [c]) + Escape(tok)
  {
    EscapeStep([c] + tok);
    assert ([c] + tok)[1..] == tok;
  }

  lemma {:induction false} EscapeHasNoSlash(tok: string)
    ensures '/' !in Escape(tok)
  {
    if tok != "" {
      EscapeStep(tok);
      EscapeHasNoSlash(tok[1..]);
    }
  }

  lemma FirstPassStep(c: char, e: string)
    ensures Unreplace(EscapedChar(c) + e, '1', '/') == (if c == '~' then "~0" else [c]) + Unreplace(e, '1', '/')
  {
  }

  /** What the first pass leaves: every `~0` intact, every `~1` a slash again. */
  lemma {:induction false} FirstPass(tok: string)
    ensures Unreplace(Escape(tok), '1', '/') == Replace(tok, '~', "~0")
  {
    if tok != "" {
      EscapeStep(tok);
      FirstPass(tok[1..]);
      FirstPassStep(tok[0], Escape(tok[1..]));
    }
  }

  lemma {:induction false} SecondPass(tok: string)
    ensures Unreplace(Replace(tok, '~', "~0"), '0', '~') == tok
  {
    if tok != "" {
      SecondPass(tok[1..]);
    }
  }

  /** Token escaping is invertible. */
  lemma EscapeRoundTrip(tok: string)
    ensures Unescape(Escape(tok)) == tok
  {
    FirstPass(tok);
    SecondPass(tok);
  }

  lemma {:induction false} SegmentsHead(s: string, rest: string)
    requires '/' !in s
    ensures Segments(s + "/" + rest) == [s] + Segments(rest)
    ensures Segments(s) == [s]
  {
    if s != "" {
      SegmentsHead(s[1..], rest);
      assert (s + "/" + rest)[1..] == s[1..] + "/" + rest;
      assert [s[0]] + s[1..] == s;
    }
  }

  /** A pointer names one path: decoding inverts encoding. */
  lemma {:induction false} PointerRoundTrip(p: Path)
    ensures Decode(Encode(p)) == p
  {
    if p != [] {
      var tok, tail := p[0], p[1..];
      PointerRoundTrip(tail);
      EscapeRoundTrip(tok);
      SegmentsOfPointer(Escape(tok), tail, tok);
      assert Encode(p) == "/" + (Escape(tok) + Encode(tail));
    }
  }

  lemma SegmentsOfPointer(head: string, tail: Path, tok: string)
    requires head == Escape(tok)
    ensures UnescapeAll(Segments(head + Encode(tail))) == [Unescape(head)] + Decode(Encode(tail))
  {
    EscapeHasNoSlash(tok);
    var t := Encode(tail);
    if tail == [] {
      assert head + t == head;
      SegmentsHead(head, "");
    } else {
      assert head + t == head + "/" + t[1..];
      SegmentsHead(head, t[1..]);
    }
  }

  lemma {:induction false} EncodeAppend(p: Path, tok: string)
    ensures Encode(p + [tok]) == Encode(p) + "/" + Escape(tok)
  {
    if p != [] {
      assert (p + [tok])[1..] == p[1..] + [tok];
      EncodeAppend(p[1..], tok);
    }
  }

  lemma {:induction false} EscapeDigits(s: string)
    requires IsDigits(s)
    ensures Escape(s) == s
  {
    if s != "" {
      EscapeDigits(s[1..]);
    }
  }
}
