/**
  JSON encoding and decoding of `OrderedMap` (internal/omap/marshal.go).

  Encoding writes the entries in order with their raw values verbatim; the
  key text comes from `json.Marshal` of the key, a parameter here. Decoding
  walks the token stream of `encoding/json`'s `Decoder`: the decoder is a
  parameter too, given as the tokens of the input in order, each with the
  input offset just after it, and the error `Token` reports once they run
  out (io.EOF at the end of the input, or a syntax error).
 */
module OmapJson {
  import opened Wrappers
  import opened OrderedMap

  // ---------------------------------------------------------------------------
  // MarshalJSON

  /** `json.Marshal` of a key string (it cannot fail for a string). */
  type Quote = string -> string

  function EntryText(e: Entry, quote: Quote): string {
    quote(e.key) + ":" + e.value
  }

  /** The entries separated by ','. */
  function Body(es: seq<Entry>, quote: Quote): string
    requires |es| >= 1
    decreases |es|
  {
    if |es| == 1 then EntryText(es[0], quote)
    else EntryText(es[0], quote) + "," + Body(es[1..], quote)
  }

  /** `MarshalJSON`: a nil map is `null`, an empty one `{}`. */
  function Marshal(om: OrderedMap, quote: Quote): (r: string)
    ensures om.Nil? ==> r == "null"
    ensures om == Entries([]) ==> r == "{}"
    ensures om.Entries? ==> |r| >= 2 && r[0] == '{' && r[|r| - 1] == '}'
  {
    match om
    case Nil => "null"
    case Entries(es) => if |es| == 0 then "{}" else "{" + Body(es, quote) + "}"
  }

  // ---------------------------------------------------------------------------
  // The decoder's tokens

  datatype Token = ObjectStart | ObjectEnd | ArrayStart | ArrayEnd | Str(s: string) | Scalar

  /** A token and the decoder's `InputOffset` right after it. */
  datatype Lexeme = Lexeme(tok: Token, end: nat)

  datatype Lexed = Lexed(lexemes: seq<Lexeme>, stop: string)

  // ---------------------------------------------------------------------------
  // readValue

  /** `Ended` is `errObjectEnded`, after consuming the closing token at `at - 1`. */
  datatype ReadError = Ended(at: nat) | TokenFailed(e: string)

  /** `readValue` from token `i`: a scalar or string is one token, an array
      or object runs up to and including its closing token, a closing token
      ends the enclosing container. The result is the index after the value. */
  function ReadValue(ts: seq<Lexeme>, stop: string, i: nat): (r: Result<nat, ReadError>)
    requires i <= |ts|
    ensures r.Ok? ==> i < r.value <= |ts|
    ensures r.Err? && r.error.Ended? ==>
      r.error.at == i + 1 <= |ts| && (ts[i].tok == ObjectEnd || ts[i].tok == ArrayEnd)
    decreases |ts| - i, 0
  {
    if i == |ts| then Err(TokenFailed(stop))
    else
      match ts[i].tok
      case ObjectStart => ReadItems(ts, stop, i + 1)
      case ArrayStart => ReadItems(ts, stop, i + 1)
      case ObjectEnd => Err(Ended(i + 1))
      case ArrayEnd => Err(Ended(i + 1))
      case _ => Ok(i + 1)
  }

  /** The loop inside `readValue` for an array or object: values until one
      reports `errObjectEnded`. */
  function ReadItems(ts: seq<Lexeme>, stop: string, i: nat): (r: Result<nat, ReadError>)
    requires i <= |ts|
    ensures r.Ok? ==> i < r.value <= |ts|
    ensures r.Err? ==> r.error.TokenFailed?
    // the loop ends just after the closing token of its container
    ensures r.Ok? ==> ts[r.value - 1].tok == ObjectEnd || ts[r.value - 1].tok == ArrayEnd
    decreases |ts| - i, 1
  {
    match ReadValue(ts, stop, i)
    case Ok(j) => ReadItems(ts, stop, j)
    case Err(Ended(j)) => Ok(j)
    case Err(TokenFailed(e)) => Err(TokenFailed(e))
  }

  function ShiftRead(r: Result<nat, ReadError>, d: nat): Result<nat, ReadError> {
    match r
    case Ok(j) => Ok(j + d)
    case Err(Ended(j)) => Err(Ended(j + d))
    case Err(TokenFailed(e)) => Err(TokenFailed(e))
  }

  /** The lexemes with every offset moved by `d`. */
  function Shift(ls: seq<Lexeme>, d: nat): (r: seq<Lexeme>)
    ensures |r| == |ls| && SameTokens(r, ls)
    ensures |ls| > 0 ==> r[|r| - 1].end == ls[|ls| - 1].end + d
  {
    seq(|ls|, i requires 0 <= i < |ls| => Lexeme(ls[i].tok, ls[i].end + d))
  }

  /** Two lexeme sequences with the same tokens, offsets aside. */
  predicate SameTokens(a: seq<Lexeme>, b: seq<Lexeme>) {
    |a| == |b| && forall i :: 0 <= i < |a| ==> a[i].tok == b[i].tok
  }

  /** The tokens of `t` appear in `ls` from position `p` on. */
  predicate TokensAt(ls: seq<Lexeme>, p: nat, t: seq<Lexeme>) {
    p + |t| <= |ls| && forall j :: 0 <= j < |t| ==> ls[p + j].tok == t[j].tok
  }

  /** A value that `readValue` reads to its end, or a closing token, reads the
      same wherever its tokens sit in a longer stream, whatever the offsets. */
  lemma {:induction false} ValueFrame(ls: seq<Lexeme>, t: seq<Lexeme>, p: nat, s1: string, s2: string, i: nat)
    requires i <= |t| && TokensAt(ls, p, t)
    requires ReadValue(t, s1, i).Ok? || ReadValue(t, s1, i).error.Ended?
    ensures ReadValue(ls, s2, p + i) == ShiftRead(ReadValue(t, s1, i), p)
    decreases |t| - i, 0
  {
    assert ls[p + i].tok == t[i].tok;
    match t[i].tok
    case ObjectStart => ItemsFrame(ls, t, p, s1, s2, i + 1);
    case ArrayStart => ItemsFrame(ls, t, p, s1, s2, i + 1);
    case _ =>
  }

  lemma {:induction false} ItemsFrame(ls: seq<Lexeme>, t: seq<Lexeme>, p: nat, s1: string, s2: string, i: nat)
    requires i <= |t| && TokensAt(ls, p, t)
    requires ReadItems(t, s1, i).Ok?
    ensures ReadItems(ls, s2, p + i) == Ok(p + ReadItems(t, s1, i).value)
    decreases |t| - i, 1
  {
    match ReadValue(t, s1, i)
    case Ok(j) =>
      ValueFrame(ls, t, p, s1, s2, i);
      ItemsFrame(ls, t, p, s1, s2, j);
    case Err(Ended(j)) =>
      ValueFrame(ls, t, p, s1, s2, i);
  }

  // ---------------------------------------------------------------------------
  // parseValue

  function IndexOf(s: string, c: char): (r: Option<nat>)
    ensures r.Some? ==> r.value < |s| && s[r.value] == c && c !in s[..r.value]
    ensures r.None? ==> c !in s
    decreases |s|
  {
    if |s| == 0 then None
    else if s[0] == c then Some(0)
    else
      match IndexOf(s[1..], c)
      case None => None
      case Some(k) =>
        assert s[..k + 1] == [s[0]] + s[1..][..k];
        Some(k + 1)
  }

  /** `parseValue` on the slice between the key and the end of its value:
      the text after the first ':', or nil (here "") when there is none. */
  function ParseValue(slice: string): (r: string)
    ensures ':' !in slice ==> r == ""
    ensures ':' in slice ==>
      var k := |slice| - |r| - 1;
      0 <= k && slice[k] == ':' && ':' !in slice[..k] && r == slice[k + 1..]
  {
    match IndexOf(slice, ':')
    case None => ""
    case Some(k) => slice[k + 1..]
  }

  /** Whitespace between the key and ':' is skipped; the raw value keeps
      everything after the ':' (leading whitespace included). */
  lemma {:induction false} ParseAfterColon(ws: string, v: string)
    requires ':' !in ws
    ensures ParseValue(ws + ":" + v) == v
  {
    var s := ws + ":" + v;
    assert forall j :: 0 <= j < |ws| ==> s[j] == ws[j];
    assert s[|ws|] == ':';
    var k :| 0 <= k < |s| && s[k] == ':' && ':' !in s[..k] && ParseValue(s) == s[k + 1..];
    assert k == |ws|;
    assert s[|ws| + 1..] == v;
  }

  // ---------------------------------------------------------------------------
  // UnmarshalJSON

  datatype UnmarshalError = TokenError(e: string) | WantObjectStart | ObjectEnded | Panicked

  /** The map left in the receiver and the error returned. */
  datatype Decoded = Decoded(om: OrderedMap, err: Option<UnmarshalError>)

  /** `UnmarshalJSON`: the receiver is only replaced once the first token is
      '{'; entries read before an error stay in it. */
  function Unmarshal(data: string, lex: Lexed, receiver: OrderedMap): (r: Decoded)
    ensures |lex.lexemes| == 0 ==> r == Decoded(receiver, Some(TokenError(lex.stop)))
    ensures |lex.lexemes| > 0 && lex.lexemes[0].tok != ObjectStart ==> r == Decoded(receiver, Some(WantObjectStart))
    ensures |lex.lexemes| > 0 && lex.lexemes[0].tok == ObjectStart ==> r.om.Entries?
  {
    if |lex.lexemes| == 0 then Decoded(receiver, Some(TokenError(lex.stop)))
    else if lex.lexemes[0].tok != ObjectStart then Decoded(receiver, Some(WantObjectStart))
    else ReadEntries(data, lex, 1, [])
  }

  function ReadErrorOf(e: ReadError): UnmarshalError {
    match e
    case Ended(_) => ObjectEnded
    case TokenFailed(t) => TokenError(t)
  }

  /** The entry loop from token `i`, with the entries read so far. A key that
      is not a string token, and a value slice outside the input, are panics
      in the code (neither happens with a real decoder). */
  function ReadEntries(data: string, lex: Lexed, i: nat, acc: seq<Entry>): (r: Decoded)
    requires i <= |lex.lexemes|
    ensures r.om.Entries?
    // the entries read so far stay, in order, at the front
    ensures |acc| <= |r.om.entries| && r.om.entries[..|acc|] == acc
    decreases |lex.lexemes| - i
  {
    if i == |lex.lexemes| then Decoded(Entries(acc), Some(TokenError(lex.stop)))
    else
      match lex.lexemes[i].tok
      case ObjectEnd => Decoded(Entries(acc), None)
      case Str(k) =>
        var start := lex.lexemes[i].end;
        (match ReadValue(lex.lexemes, lex.stop, i + 1)
         case Err(e) => Decoded(Entries(acc), Some(ReadErrorOf(e)))
         case Ok(j) =>
           var end := lex.lexemes[j - 1].end;
           if start <= end <= |data| then
             var acc' := acc + [Entry(k, ParseValue(data[start..end]))];
             var r := ReadEntries(data, lex, j, acc');
             assert r.om.entries[..|acc|] == r.om.entries[..|acc'|][..|acc|];
             r
           else Decoded(Entries(acc), Some(Panicked)))
      case _ => Decoded(Entries(acc), Some(Panicked))
  }

  // ---------------------------------------------------------------------------
  // Round trip

  /** The decoder's view of one raw value: its tokens, with offsets counted
      from the value's first byte, form exactly one value ending at its last
      byte. */
  predicate Lexes(v: string, vl: seq<Lexeme>) {
    |vl| > 0 && vl[|vl| - 1].end == |v| && ReadValue(vl, "", 0) == Ok(|vl|)
  }

  /** The tokens a decoder reports for the entries of `Body(es)` written at
      offset `off`. */
  function LexEntries(es: seq<Entry>, off: nat, quote: Quote, vlex: string -> seq<Lexeme>): seq<Lexeme>
    decreases |es|
  {
    if |es| == 0 then []
    else
      var valueStart := off + |quote(es[0].key)| + 1;
      [Lexeme(Str(es[0].key), off + |quote(es[0].key)|)] + Shift(vlex(es[0].value), valueStart) +
      LexEntries(es[1..], valueStart + |es[0].value| + 1, quote, vlex)
  }

  /** The tokens a decoder reports for `Marshal(Entries(es))`. */
  function LexMarshalled(es: seq<Entry>, quote: Quote, vlex: string -> seq<Lexeme>): seq<Lexeme> {
    [Lexeme(ObjectStart, 1)] + LexEntries(es, 1, quote, vlex) +
    [Lexeme(ObjectEnd, |Marshal(Entries(es), quote)|)]
  }

  lemma {:induction false} SubSlice(a: string, i: nat, j: nat, x: nat, y: nat)
    requires i <= j <= |a| && x <= y <= j - i
    ensures a[i + x..i + y] == a[i..j][x..y]
  {
    var l := a[i + x..i + y];
    var r := a[i..j][x..y];
    forall k | 0 <= k < |l| ensures l[k] == r[k] {
      assert l[k] == a[i + x + k];
      assert r[k] == a[i..j][x + k];
    }
  }

  /** Pieces of `q + ":" + v + rest` written at offset `off`. */
  lemma {:induction false} Pieces(data: string, off: nat, q: string, v: string, rest: string)
    requires off + |q| + 1 + |v| + |rest| <= |data|
    requires data[off..off + |q| + 1 + |v| + |rest|] == q + ":" + v + rest
    ensures data[off + |q|..off + |q| + 1 + |v|] == ":" + v
    ensures data[off + |q| + 1 + |v|..off + |q| + 1 + |v| + |rest|] == rest
  {
    var w := q + ":" + v + rest;
    var n := |q| + 1 + |v|;
    SubSlice(data, off, off + |w|, |q|, n);
    SubSlice(data, off, off + |w|, n, |w|);
    assert w[|q|..n] == ":" + v;
    assert w[n..] == rest;
  }

  /** Where the first entry's parts sit in the marshalled text. */
  lemma {:induction false} EntrySlices(data: string, es: seq<Entry>, off: nat, quote: Quote)
    requires |es| > 0
    requires off + |Body(es, quote)| <= |data| && data[off..off + |Body(es, quote)|] == Body(es, quote)
    ensures var q := quote(es[0].key);
      off + |q| + 1 + |es[0].value| <= |data| &&
      data[off + |q|..off + |q| + 1 + |es[0].value|] == ":" + es[0].value
    ensures |es| > 1 ==>
      var next := off + |quote(es[0].key)| + 1 + |es[0].value| + 1;
      next + |Body(es[1..], quote)| <= |data| &&
      data[next..next + |Body(es[1..], quote)|] == Body(es[1..], quote)
  {
    var e := es[0];
    var q := quote(e.key);
    if |es| == 1 {
      assert Body(es, quote) == q + ":" + e.value + "";
      Pieces(data, off, q, e.value, "");
    } else {
      var rb := Body(es[1..], quote);
      assert Body(es, quote) == q + ":" + e.value + ("," + rb);
      Pieces(data, off, q, e.value, "," + rb);
      var n := off + |q| + 1 + |e.value|;
      SubSlice(data, n, n + 1 + |rb|, 1, 1 + |rb|);
    }
  }

  /** One turn of the entry loop: a key token, then a value of `n` tokens
      whose text, from the end of the key, is ':' and the raw value. */
  lemma {:induction false} EntryStep(data: string, ls: seq<Lexeme>, stop: string, i: nat, acc: seq<Entry>,
                  k: string, v: string, n: nat, result: Decoded)
    requires i + 1 + n <= |ls| && n > 0 && ls[i].tok == Str(k)
    requires ReadValue(ls, stop, i + 1) == Ok(i + 1 + n)
    requires ls[i].end <= ls[i + n].end <= |data|
    requires data[ls[i].end..ls[i + n].end] == ":" + v
    requires ReadEntries(data, Lexed(ls, stop), i + 1 + n, acc + [Entry(k, v)]) == result
    ensures ReadEntries(data, Lexed(ls, stop), i, acc) == result
  {
    ParseColon(data[ls[i].end..ls[i + n].end], v);
  }

  lemma {:induction false} ParseColon(s: string, v: string)
    requires s == ":" + v
    ensures ParseValue(s) == v
  {
    ParseAfterColon("", v);
    assert "" + ":" + v == s;
  }

  /** From token `p` on, `ls` holds the tokens of `es` written at `off`,
      then `tail`. */
  predicate Laid(ls: seq<Lexeme>, p: nat, es: seq<Entry>, off: nat, quote: Quote,
                 vlex: string -> seq<Lexeme>, tail: seq<Lexeme>) {
    p <= |ls| && ls[p..] == LexEntries(es, off, quote, vlex) + tail
  }

  /** Where the first entry's tokens sit in the stream. */
  lemma {:induction false} EntryLayout(ls: seq<Lexeme>, p: nat, es: seq<Entry>, off: nat, quote: Quote,
                                       vlex: string -> seq<Lexeme>, tail: seq<Lexeme>, stop: string)
    requires |es| > 0 && Lexes(es[0].value, vlex(es[0].value))
    requires Laid(ls, p, es, off, quote, vlex, tail)
    ensures var q := quote(es[0].key);
      var n := |vlex(es[0].value)|;
      var valueStart := off + |q| + 1;
      var next := valueStart + |es[0].value| + 1;
      p + 1 + n <= |ls| && n > 0 &&
      ls[p] == Lexeme(Str(es[0].key), off + |q|) &&
      ls[p + n].end == valueStart + |es[0].value| &&
      ReadValue(ls, stop, p + 1) == Ok(p + 1 + n) &&
      Laid(ls, p + 1 + n, es[1..], next, quote, vlex, tail)
  {
    var e := es[0];
    var q := quote(e.key);
    var vl := vlex(e.value);
    var n := |vl|;
    var valueStart := off + |q| + 1;
    var next := valueStart + |e.value| + 1;
    var rest := LexEntries(es[1..], next, quote, vlex);
    var sv := Shift(vl, valueStart);
    var x := [Lexeme(Str(e.key), off + |q|)];
    var t := ls[p..];
    assert LexEntries(es, off, quote, vlex) == x + sv + rest;
    assert t == x + sv + (rest + tail);
    ThreeParts(ls, p, x, sv, rest + tail);
    assert ls[p] == ls[p..p + 1][0];
    ShiftedValue(ls, p + 1, vl, valueStart, stop);
    assert ls[p + n] == ls[p + 1..p + 1 + n][n - 1];
  }

  lemma ThreeParts(ls: seq<Lexeme>, p: nat, a: seq<Lexeme>, b: seq<Lexeme>, c: seq<Lexeme>)
    requires p <= |ls| && ls[p..] == a + b + c
    ensures p + |a| + |b| <= |ls|
    ensures ls[p..p + |a|] == a && ls[p + |a|..p + |a| + |b|] == b && ls[p + |a| + |b|..] == c
  {
    var t := ls[p..];
    assert ls[p..p + |a|] == t[..|a|];
    assert ls[p + |a|..p + |a| + |b|] == t[|a|..|a| + |b|];
    assert ls[p + |a| + |b|..] == t[|a| + |b|..];
  }

  /** A value's tokens, moved by `d` and placed at `p`, read as one value. */
  lemma ShiftedValue(ls: seq<Lexeme>, p: nat, vl: seq<Lexeme>, d: nat, stop: string)
    requires ReadValue(vl, "", 0) == Ok(|vl|)
    requires p + |vl| <= |ls| && ls[p..p + |vl|] == Shift(vl, d)
    ensures ReadValue(ls, stop, p) == Ok(p + |vl|)
  {
    forall j | 0 <= j < |vl|
      ensures ls[p + j].tok == vl[j].tok
    {
      var sv := Shift(vl, d);
      assert ls[p + j] == ls[p..p + |vl|][j] == sv[j];
      assert sv[j].tok == vl[j].tok;
    }
    assert TokensAt(ls, p, vl);
    ValueFrame(ls, vl, p, "", stop, 0);
  }

  /** Each raw value of `es` follows a ':' in `data`, the first at the end of
      the key text written at `off`, each next one an entry and a separator
      further on. */
  predicate WrittenAt(data: string, es: seq<Entry>, off: nat, quote: Quote)
    decreases |es|
  {
    |es| == 0 ||
    (var n := off + |quote(es[0].key)|;
     n + 1 + |es[0].value| <= |data| &&
     data[n..n + 1 + |es[0].value|] == ":" + es[0].value &&
     WrittenAt(data, es[1..], n + 1 + |es[0].value| + 1, quote))
  }

  lemma {:induction false} BodyWritten(data: string, es: seq<Entry>, off: nat, quote: Quote)
    requires |es| > 0 ==> off + |Body(es, quote)| <= |data| && data[off..off + |Body(es, quote)|] == Body(es, quote)
    ensures WrittenAt(data, es, off, quote)
    decreases |es|
  {
    if |es| > 0 {
      EntrySlices(data, es, off, quote);
      BodyWritten(data, es[1..], off + |quote(es[0].key)| + 1 + |es[0].value| + 1, quote);
    }
  }

  /** The decoder sees every raw value of `es` as one complete value. */
  predicate AllLex(es: seq<Entry>, vlex: string -> seq<Lexeme>) {
    forall i :: 0 <= i < |es| ==> Lexes(es[i].value, vlex(es[i].value))
  }

  lemma {:induction false} AllLexTail(es: seq<Entry>, vlex: string -> seq<Lexeme>)
    requires |es| > 0 && AllLex(es, vlex)
    ensures Lexes(es[0].value, vlex(es[0].value)) && AllLex(es[1..], vlex)
  {
    assert forall i :: 0 <= i < |es| - 1 ==> es[1..][i] == es[i + 1];
  }

  /** From token `p` on, `ls` holds, for each entry written at `off`, its key
      and then a value `readValue` reads to its last token, whose offset is
      the end of the raw value; then '}'. */
  predicate LexAt(ls: seq<Lexeme>, stop: string, p: nat, es: seq<Entry>, off: nat,
                  quote: Quote, vlex: string -> seq<Lexeme>)
    decreases |es|
  {
    if |es| == 0 then p < |ls| && ls[p].tok == ObjectEnd
    else
      var q := quote(es[0].key);
      var n := |vlex(es[0].value)|;
      var valueStart := off + |q| + 1;
      p + 1 + n <= |ls| && n > 0 &&
      ls[p] == Lexeme(Str(es[0].key), off + |q|) &&
      ls[p + n].end == valueStart + |es[0].value| &&
      ReadValue(ls, stop, p + 1) == Ok(p + 1 + n) &&
      LexAt(ls, stop, p + 1 + n, es[1..], valueStart + |es[0].value| + 1, quote, vlex)
  }


  /** The entry loop stops at '}' with no error. */
  lemma ReadEntriesEnd(data: string, ls: seq<Lexeme>, stop: string, p: nat, acc: seq<Entry>)
    requires p < |ls| && ls[p].tok == ObjectEnd
    ensures ReadEntries(data, Lexed(ls, stop), p, acc) == Decoded(Entries(acc), None)
  {
  }

  /** `LexAt` for one more entry in front. */
  lemma {:induction false} LexAtCons(ls: seq<Lexeme>, stop: string, p: nat, es: seq<Entry>, off: nat,
                                     quote: Quote, vlex: string -> seq<Lexeme>)
    requires |es| > 0
    requires var q := quote(es[0].key);
      var n := |vlex(es[0].value)|;
      var valueStart := off + |q| + 1;
      p + 1 + n <= |ls| && n > 0 &&
      ls[p] == Lexeme(Str(es[0].key), off + |q|) &&
      ls[p + n].end == valueStart + |es[0].value| &&
      ReadValue(ls, stop, p + 1) == Ok(p + 1 + n) &&
      LexAt(ls, stop, p + 1 + n, es[1..], valueStart + |es[0].value| + 1, quote, vlex)
    ensures LexAt(ls, stop, p, es, off, quote, vlex)
  {
  }

  lemma {:induction false} LexedEnd(ls: seq<Lexeme>, p: nat, tail: seq<Lexeme>)
    requires |tail| > 0 && p <= |ls| && ls[p..] == tail
    ensures p < |ls| && ls[p] == tail[0]
  {
    assert ls[p] == ls[p..][0];
  }

  /** The tokens of marshalled entries are laid out as `LexAt` says. */
  lemma {:induction false} LexedAt(ls: seq<Lexeme>, p: nat, es: seq<Entry>, off: nat, quote: Quote,
                                   vlex: string -> seq<Lexeme>, tail: seq<Lexeme>, stop: string)
    requires AllLex(es, vlex)
    requires |tail| > 0 && tail[0].tok == ObjectEnd
    requires Laid(ls, p, es, off, quote, vlex, tail)
    ensures LexAt(ls, stop, p, es, off, quote, vlex)
    decreases |es|
  {
    if |es| == 0 {
      assert LexEntries(es, off, quote, vlex) + tail == tail;
      LexedEnd(ls, p, tail);
    } else {
      var e := es[0];
      var q := quote(e.key);
      var valueStart := off + |q| + 1;
      var next := valueStart + |e.value| + 1;
      AllLexTail(es, vlex);
      EntryLayout(ls, p, es, off, quote, vlex, tail, stop);
      LexedAt(ls, p + 1 + |vlex(e.value)|, es[1..], next, quote, vlex, tail, stop);
      LexAtCons(ls, stop, p, es, off, quote, vlex);
    }
  }

  /** The entry loop reads back every entry laid out as `LexAt` says, with
      the raw values `WrittenAt` puts in the input. */
  lemma {:induction false} ReadBack(data: string, ls: seq<Lexeme>, stop: string, p: nat, es: seq<Entry>,
                                    off: nat, acc: seq<Entry>, quote: Quote, vlex: string -> seq<Lexeme>)
    requires p <= |ls|
    requires LexAt(ls, stop, p, es, off, quote, vlex)
    requires WrittenAt(data, es, off, quote)
    ensures ReadEntries(data, Lexed(ls, stop), p, acc) == Decoded(Entries(acc + es), None)
    decreases |es|
  {
    if |es| == 0 {
      assert acc + es == acc;
      ReadEntriesEnd(data, ls, stop, p, acc);
    } else {
      var e := es[0];
      var q := quote(e.key);
      var n := |vlex(e.value)|;
      var valueStart := off + |q| + 1;
      assert acc + [e] + es[1..] == acc + es;
      ReadBack(data, ls, stop, p + 1 + n, es[1..], valueStart + |e.value| + 1, acc + [e], quote, vlex);
      EntryStep(data, ls, stop, p, acc, e.key, e.value, n, Decoded(Entries(acc + es), None));
    }
  }

  /** Decoding what `MarshalJSON` wrote gives back the same entries in the
      same order, whatever the receiver held, provided the decoder sees each
      raw value as one complete JSON value. */
  lemma {:induction false} RoundTrip(es: seq<Entry>, quote: Quote, vlex: string -> seq<Lexeme>, stop: string, receiver: OrderedMap)
    requires forall i :: 0 <= i < |es| ==> Lexes(es[i].value, vlex(es[i].value))
    ensures Unmarshal(Marshal(Entries(es), quote), Lexed(LexMarshalled(es, quote, vlex), stop), receiver) ==
            Decoded(Entries(es), None)
  {
    var data := Marshal(Entries(es), quote);
    var ls := LexMarshalled(es, quote, vlex);
    var pre := [Lexeme(ObjectStart, 1)];
    if |es| > 0 {
      var body := Body(es, quote);
      assert data == "{" + body + "}";
      assert data[1..1 + |body|] == body;
    }
    assert AllLex(es, vlex);
    BodyWritten(data, es, 1, quote);
    assert ls[1..] == LexEntries(es, 1, quote, vlex) + [Lexeme(ObjectEnd, |data|)];
    LexedAt(ls, 1, es, 1, quote, vlex, [Lexeme(ObjectEnd, |data|)], stop);
    ReadBack(data, ls, stop, 1, es, 1, [], quote, vlex);
    assert [] + es == es;
  }

  /** A nil map does not survive a round trip: `null` is not an object, and
      the receiver keeps what it held. */
  lemma {:induction false} NilDoesNotRoundTrip(stop: string, receiver: OrderedMap)
    ensures Marshal(Nil, (k: string) => k) == "null"
    ensures Unmarshal("null", Lexed([Lexeme(Scalar, 4)], stop), receiver) == Decoded(receiver, Some(WantObjectStart))
  {
  }
}
