/** JSON values as the issue tracker returns them, and JSON Pointer (RFC 6901)
    evaluation over them: RFC 6901 section 3 gives the syntax and the `~0`/`~1`
    escapes, RFC 6901 section 4 the evaluation step by step through objects and
    arrays. */
module JsonPointer {
  import opened Results
  import Decimal

  /** A JSON value. Numbers keep only their integer value: JSON Pointer
      evaluation never looks inside them. */
  datatype Json =
    | Null
    | Bool(b: bool)
    | Number(n: int)
    | Str(s: string)
    | Array(items: seq<Json>)
    | Object(members: map<string, Json>)

  datatype PointerError =
    | Malformed   // violates the syntax of RFC 6901 section 3
    | NotFound    // well formed, but names no value of the document (RFC 6901 section 4)

  // RFC 6901 section 3: reference tokens and their escapes

  /** Splits text on every `/`; the result has one more part than there are
      slashes. */
  function Split(s: string): (parts: seq<string>)
    ensures |parts| >= 1
  {
    if s == [] then [""]
    else
      var rest := Split(s[1..]);
      if s[0] == '/' then [""] + rest else [[s[0]] + rest[0]] + rest[1..]
  }

  /** Joins parts with `/` between them (the inverse of `Split` for parts
      without a slash, see `SplitJoin`). */
  function Join(parts: seq<string>): string
    requires |parts| >= 1
  {
    if |parts| == 1 then parts[0] else parts[0] + "/" + Join(parts[1..])
  }

  /** Writes a key as a reference token: `~` becomes `~0` and `/` becomes `~1`. */
  function Escape(key: string): (token: string)
    ensures '/' !in token
  {
    if key == [] then []
    else
      (if key[0] == '~' then "~0" else if key[0] == '/' then "~1" else [key[0]])
        + Escape(key[1..])
  }

  /** Reads a reference token back into a key; `None` when a `~` is not
      followed by `0` or `1`. */
  function Unescape(token: string): Option<string> {
    if token == [] then Some([])
    else if token[0] == '~' then
      if |token| >= 2 && (token[1] == '0' || token[1] == '1') then
        match Unescape(token[2..])
        case Some(rest) => Some([if token[1] == '0' then '~' else '/'] + rest)
        case None => None
      else None
    else
      match Unescape(token[1..])
      case Some(rest) => Some([token[0]] + rest)
      case None => None
  }

  function UnescapeAll(tokens: seq<string>): (r: Option<seq<string>>)
    ensures r.Some? ==> |r.value| == |tokens|
  {
    if tokens == [] then Some([])
    else
      match (Unescape(tokens[0]), UnescapeAll(tokens[1..]))
      case (Some(k), Some(ks)) => Some([k] + ks)
      case _ => None
  }

  /** The keys a pointer names, in order: `""` names the whole document,
      anything else must start with `/`. */
  function Parse(pointer: string): Result<seq<string>, PointerError> {
    if pointer == [] then Success([])
    else if pointer[0] != '/' then Failure(Malformed)
    else
      match UnescapeAll(Split(pointer[1..]))
      case Some(keys) => Success(keys)
      case None => Failure(Malformed)
  }

  /** The JSON Pointer text for a path of keys: `/` before each escaped key. */
  function Format(keys: seq<string>): string {
    if keys == [] then [] else "/" + Escape(keys[0]) + Format(keys[1..])
  }

  // RFC 6901 section 4: evaluation

  /** An array index token: `0`, or digits without a leading zero. `-` and
      everything else name no element. */
  function ArrayIndex(token: string): Option<nat> {
    if token != [] && Decimal.AllDigits(token) && (token[0] != '0' || |token| == 1)
    then Some(Decimal.DigitsValue(token))
    else None
  }

  /** Follows `keys` from `v`: an object by member name, an array by index. */
  function Walk(v: Json, keys: seq<string>): Option<Json>
    decreases |keys|
  {
    if keys == [] then Some(v)
    else
      match v
      case Object(m) => if keys[0] in m then Walk(m[keys[0]], keys[1..]) else None
      case Array(items) =>
        (match ArrayIndex(keys[0])
         case Some(i) => if i < |items| then Walk(items[i], keys[1..]) else None
         case None => None)
      case _ => None
  }

  /** The value `pointer` names in `document`. */
  function Evaluate(document: Json, pointer: string): Result<Json, PointerError> {
    match Parse(pointer)
    case Failure(e) => Failure(e)
    case Success(keys) =>
      match Walk(document, keys)
      case Some(v) => Success(v)
      case None => Failure(NotFound)
  }

  // Properties

  /** Escaping a key and reading the token back gives the key. */
  lemma {:induction false} UnescapeEscape(key: string)
    ensures Unescape(Escape(key)) == Some(key)
  {
    if key != [] {
      UnescapeEscape(key[1..]);
      var head := if key[0] == '~' then "~0" else if key[0] == '/' then "~1" else [key[0]];
      assert Escape(key) == head + Escape(key[1..]);
      assert key == [key[0]] + key[1..];
      if key[0] == '~' || key[0] == '/' {
        assert Escape(key)[2..] == Escape(key[1..]);
      } else {
        assert Escape(key)[1..] == Escape(key[1..]);
      }
    }
  }

  /** A token that reads back to a key is exactly that key escaped: every
      well-formed token has one spelling. */
  lemma {:induction false} EscapeUnescape(token: string)
    requires '/' !in token && Unescape(token).Some?
    ensures Escape(Unescape(token).value) == token
  {
    if token != [] {
      var key := Unescape(token).value;
      if token[0] == '~' {
        var rest := Unescape(token[2..]).value;
        EscapeUnescape(token[2..]);
        assert key[1..] == rest;
        assert token == token[..2] + token[2..];
      } else {
        var rest := Unescape(token[1..]).value;
        EscapeUnescape(token[1..]);
        assert key[1..] == rest;
        assert token == [token[0]] + token[1..];
      }
    }
  }

  /** A key with neither `~` nor `/` is its own token. */
  lemma {:induction false} EscapePlain(key: string)
    requires '~' !in key && '/' !in key
    ensures Escape(key) == key
  {
    if key != [] {
      EscapePlain(key[1..]);
      assert key == [key[0]] + key[1..];
    }
  }

  lemma {:induction false} SplitNoSlash(s: string)
    requires '/' !in s
    ensures Split(s) == [s]
  {
    if s != [] {
      SplitNoSlash(s[1..]);
      assert s == [s[0]] + s[1..];
    }
  }

  /** Splitting after a slash-free prefix. */
  lemma {:induction false} SplitAfter(a: string, b: string)
    requires '/' !in a
    ensures Split(a + "/" + b) == [a] + Split(b)
  {
    if a == [] {
      assert (a + "/" + b)[1..] == b;
    } else {
      assert (a + "/" + b)[0] == a[0];
      assert (a + "/" + b)[1..] == a[1..] + "/" + b;
      SplitAfter(a[1..], b);
      assert a == [a[0]] + a[1..];
    }
  }

  lemma {:induction false} SplitJoin(parts: seq<string>)
    requires |parts| >= 1
    requires forall i :: 0 <= i < |parts| ==> '/' !in parts[i]
    ensures Split(Join(parts)) == parts
  {
    if |parts| == 1 {
      SplitNoSlash(parts[0]);
    } else {
      SplitJoin(parts[1..]);
      SplitAfter(parts[0], Join(parts[1..]));
    }
  }

  function EscapeAll(keys: seq<string>): (tokens: seq<string>)
    ensures |tokens| == |keys|
    ensures forall i :: 0 <= i < |keys| ==> tokens[i] == Escape(keys[i])
  {
    if keys == [] then [] else [Escape(keys[0])] + EscapeAll(keys[1..])
  }

  lemma {:induction false} FormatIsJoin(keys: seq<string>)
    requires keys != []
    ensures Format(keys) == "/" + Join(EscapeAll(keys))
  {
    if |keys| > 1 {
      FormatIsJoin(keys[1..]);
      assert EscapeAll(keys)[1..] == EscapeAll(keys[1..]);
    }
  }

  lemma {:induction false} UnescapeAllEscapeAll(keys: seq<string>)
    ensures UnescapeAll(EscapeAll(keys)) == Some(keys)
  {
    if keys != [] {
      UnescapeEscape(keys[0]);
      UnescapeAllEscapeAll(keys[1..]);
      var tokens := EscapeAll(keys);
      assert tokens[0] == Escape(keys[0]);
      assert tokens[1..] == EscapeAll(keys[1..]);
      assert keys == [keys[0]] + keys[1..];
    }
  }

  /** Round trip of JSON Pointer syntax: the JSON Pointer written for any path of
      keys parses back to that path. */
  lemma ParseFormat(keys: seq<string>)
    ensures Parse(Format(keys)) == Success(keys)
  {
    if keys != [] {
      FormatIsJoin(keys);
      var tokens := EscapeAll(keys);
      SplitJoin(tokens);
      assert Format(keys)[1..] == Join(tokens);
      UnescapeAllEscapeAll(keys);
    }
  }

  /** Evaluating the JSON Pointer written for a path walks that path. */
  lemma EvaluateFormat(document: Json, keys: seq<string>)
    ensures Evaluate(document, Format(keys)) ==
      (match Walk(document, keys) case Some(v) => Success(v) case None => Failure(NotFound))
  {
    ParseFormat(keys);
  }

  /** Evaluation is step by step: walking `a + b` is walking `a`, then `b`
      from where `a` ends. */
  lemma {:induction false} WalkAppend(v: Json, a: seq<string>, b: seq<string>)
    ensures Walk(v, a + b) == (match Walk(v, a) case Some(u) => Walk(u, b) case None => None)
    decreases |a|
  {
    if a != [] {
      assert (a + b)[0] == a[0] && (a + b)[1..] == a[1..] + b;
      match v
      case Object(m) =>
        if a[0] in m {
          WalkAppend(m[a[0]], a[1..], b);
        }
      case Array(items) =>
        var index := ArrayIndex(a[0]);
        if index.Some? && index.value < |items| {
          WalkAppend(items[index.value], a[1..], b);
        } else {
          assert Walk(v, a) == None;
          assert Walk(v, a + b) == None;
        }
      case _ =>
    } else {
      assert a + b == b;
    }
  }
}
