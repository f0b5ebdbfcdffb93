/**
 Redaction of logged bodies (app/middleware/request_logging.py): a string held
 directly under a sensitive key is replaced whole; everything else is kept.
 Which keys are sensitive is a parameter.
 */
module Redaction {
  import opened Json
  import opened Options

  const MASK := Str("<redacted>")

  function Redact(sensitive: string -> bool, j: Json): Json
    decreases j
  {
    match j
    case Obj(fields) =>
      Obj(map k | k in fields :: if sensitive(k) && fields[k].Str? then MASK else Redact(sensitive, fields[k]))
    case Arr(items) => Arr(seq(|items|, i requires 0 <= i < |items| => Redact(sensitive, items[i])))
    case _ => j
  }

  predicate Scalar(j: Json) {
    !j.Obj? && !j.Arr?
  }

  /** The path ends at a string held directly under a sensitive key of a dictionary. */
  predicate Hidden(sensitive: string -> bool, j: Json, p: Path)
    decreases |p|
  {
    if p == [] || Child(j, p[0]).None? then false
    else if |p| == 1 then j.Obj? && sensitive(p[0]) && Child(j, p[0]).value.Str?
    else Hidden(sensitive, Child(j, p[0]).value, p[1..])
  }

  lemma RedactChild(sensitive: string -> bool, j: Json, tok: string)
    ensures Child(Redact(sensitive, j), tok) ==
            match Child(j, tok)
            case None => None
            case Some(c) => Some(if j.Obj? && sensitive(tok) && c.Str? then MASK else Redact(sensitive, c))
  {
  }

  /** Redaction is exact: the same paths exist, a hidden string becomes the mask, and
      every other scalar is what it was. */
  lemma {:induction false} RedactIsExact(sensitive: string -> bool, j: Json, p: Path)
    ensures Lookup(j, p).None? <==> Lookup(Redact(sensitive, j), p).None?
    ensures Lookup(j, p).Some? && Scalar(Lookup(j, p).value) ==>
              Lookup(Redact(sensitive, j), p).value ==
              if Hidden(sensitive, j, p) then Str("<redacted>") else Lookup(j, p).value
    decreases |p|
  {
    if p != [] {
      RedactChild(sensitive, j, p[0]);
      if Child(j, p[0]).Some? {
        var c := Child(j, p[0]).value;
        RedactIsExact(sensitive, c, p[1..]);
      }
    }
  }

  lemma {:induction false} RedactIsIdempotent(sensitive: string -> bool, j: Json)
    ensures Redact(sensitive, Redact(sensitive, j)) == Redact(sensitive, j)
    decreases j
  {
    var r := Redact(sensitive, j);
    match j {
      case Obj(fields) =>
        forall k | k in fields
          ensures Redact(sensitive, r).fields[k] == r.fields[k]
        {
          RedactIsIdempotent(sensitive, fields[k]);
        }
      case Arr(items) =>
        forall i | 0 <= i < |items|
          ensures Redact(sensitive, r).items[i] == r.items[i]
        {
          RedactIsIdempotent(sensitive, items[i]);
        }
      case _ =>
    }
  }

  /** A list below a sensitive key is walked, not masked: its strings are logged. */
  lemma ListUnderSensitiveKeyIsKept(sensitive: string -> bool)
    ensures var j := Obj(map["tokens" := Arr([Str("abc")])]); Redact(sensitive, j) == j
  {
    var a := Arr([Str("abc")]);
    assert Redact(sensitive, a).items == a.items;
  }

  /** _redact_sensitive: rewrite a dictionary key by key, a list item by item. */
  method RedactSensitive(sensitive: string -> bool, j: Json) returns (r: Json)
    ensures r == Redact(sensitive, j)
    decreases j
  {
    r := j;
    match j {
      case Obj(fields) =>
        var out, todo := fields, fields.Keys;
        while todo != {}
          invariant out.Keys == fields.Keys && todo <= fields.Keys
          invariant forall k :: k in fields ==>
                      out[k] == if k in todo then fields[k] else Redact(sensitive, j).fields[k]
          decreases todo
        {
          var k :| k in todo;
          if sensitive(k) && out[k].Str? {
            out := out[k := MASK];
          } else if out[k].Obj? || out[k].Arr? {
            var v := RedactSensitive(sensitive, fields[k]);
            out := out[k := v];
          }
          todo := todo - {k};
        }
        r := Obj(out);
      case Arr(items) =>
        var out := items;
        for i := 0 to |items|
          invariant |out| == |items|
          invariant forall k :: 0 <= k < |items| ==> out[k] == if k < i then Redact(sensitive, items[k]) else items[k]
        {
          var v := RedactSensitive(sensitive, items[i]);
          out := out[i := v];
        }
        r := Arr(out);
      case _ =>
    }
  }
}
