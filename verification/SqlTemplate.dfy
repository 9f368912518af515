/** SQL queries built from nested template literals with bound parameters. */
module SqlTemplate {
  import opened Prelude

  /** A template literal with a value between every two parts; a value may itself be a template. */
  datatype Template<V> = Template(parts: seq<string>, values: seq<Value<V>>)
  datatype Value<V> = Plain(v: V) | Nested(template: Template<V>)

  /** Template literals have one part more than values. */
  ghost predicate WellFormed<V>(t: Template<V>) {
    |t.parts| == |t.values| + 1 && forall v <- t.values :: v.Nested? ==> WellFormed(v.template)
  }

  /** How a database adapter writes placeholders, identifiers and literals. */
  datatype Dialect<!V> = Dialect(placeholder: string, appendIndex: bool,
                                 asIdentifier: Value<V> -> string, asLiteral: Value<V> -> string)

  predicate StartsWith(s: string, prefix: string) {
    prefix <= s
  }

  const IDENT := "{IDENT}"
  const LITERAL := "{LIT}"

  // ---------------------------------------------------------------- a template as one flat query

  /** A stretch of query text, or a parameter. */
  datatype Piece<V> = Text(text: string) | Parameter(v: V)

  /** What the value at index `i` and the part after it contribute. */
  ghost function ValuePieces<V>(d: Dialect<V>, t: Template<V>, i: nat): seq<Piece<V>>
    requires WellFormed(t) && i < |t.values|
    decreases t, 0
  {
    var value, next := t.values[i], t.parts[i + 1];
    if StartsWith(next, IDENT) then [Text(d.asIdentifier(value)), Text(next[|IDENT|..])]
    else if StartsWith(next, LITERAL) then [Text(d.asLiteral(value)), Text(next[|LITERAL|..])]
    else match value
      case Nested(inner) => Pieces(d, inner, |inner.values|) + [Text(next)]
      case Plain(v) => [Parameter(v), Text(next)]
  }

  /** The flat query of the first `n` values, with all nested templates in their places. */
  ghost function Pieces<V>(d: Dialect<V>, t: Template<V>, n: nat): seq<Piece<V>>
    requires WellFormed(t) && n <= |t.values|
    decreases t, 1, n
  {
    if n == 0 then [Text(t.parts[0])] else Pieces(d, t, n - 1) + ValuePieces(d, t, n - 1)
  }

  function Parameters<V>(pieces: seq<Piece<V>>): seq<V> {
    if pieces == [] then []
    else (match pieces[0] case Text(_) => [] case Parameter(v) => [v]) + Parameters(pieces[1..])
  }

  /** The query text in which the parameters are placeholders, numbered from left to right after `start`. */
  function BoundText<V>(d: Dialect<V>, pieces: seq<Piece<V>>, start: nat): string {
    if pieces == [] then ""
    else match pieces[0]
      case Text(text) => text + BoundText(d, pieces[1..], start)
      case Parameter(_) =>
        d.placeholder + (if d.appendIndex then Decimal(start + 1) else "") + BoundText(d, pieces[1..], start + 1)
  }

  /** The query text in which the parameters are literals. */
  function EmbeddedText<V>(d: Dialect<V>, pieces: seq<Piece<V>>): string {
    if pieces == [] then ""
    else match pieces[0]
      case Text(text) => text + EmbeddedText(d, pieces[1..])
      case Parameter(v) => d.asLiteral(Plain(v)) + EmbeddedText(d, pieces[1..])
  }

  function QueryText<V>(d: Dialect<V>, pieces: seq<Piece<V>>, start: nat, embedParams: bool): string {
    if embedParams then EmbeddedText(d, pieces) else BoundText(d, pieces, start)
  }

  // ---------------------------------------------------------------- a template read as text

  datatype Annotation = AsIdentifier | AsLiteral | Unannotated

  /** The annotation at the start of the part after a value. */
  function AnnotationOf(part: string): Annotation {
    if |part| >= 7 && part[..7] == "{IDENT}" then AsIdentifier
    else if |part| >= 5 && part[..5] == "{LIT}" then AsLiteral
    else Unannotated
  }

  /** The part without its annotation. */
  function Stripped(part: string): string {
    match AnnotationOf(part)
    case AsIdentifier => part[7..]
    case AsLiteral => part[5..]
    case Unannotated => part
  }

  /** The values without annotation that are no templates, in reading order, those of nested templates in place. */
  ghost function ReadParams<V>(t: Template<V>, n: nat): seq<V>
    requires WellFormed(t) && n <= |t.values|
    decreases t, n
  {
    if n == 0 then []
    else
      ReadParams(t, n - 1) +
      match t.values[n - 1]
      case Plain(v) => if AnnotationOf(t.parts[n]) == Unannotated then [v] else []
      case Nested(inner) =>
        if AnnotationOf(t.parts[n]) == Unannotated then ReadParams(inner, |inner.values|) else []
  }

  /** What stands in the text for the value before part `n`: placeholders are numbered on after `start`. */
  ghost function ReadValue<V>(d: Dialect<V>, t: Template<V>, n: nat, start: nat, embedParams: bool): string
    requires WellFormed(t) && 0 < n <= |t.values|
    decreases t, 0
  {
    var value := t.values[n - 1];
    match AnnotationOf(t.parts[n])
    case AsIdentifier => d.asIdentifier(value)
    case AsLiteral => d.asLiteral(value)
    case Unannotated =>
      match value
      case Nested(inner) => ReadText(d, inner, |inner.values|, start, embedParams)
      case Plain(_) =>
        if embedParams then d.asLiteral(value)
        else if d.appendIndex then d.placeholder + Decimal(start + 1)
        else d.placeholder
  }

  /** The template up to part `n` read as text: its parts in order, and its values between them. */
  ghost function ReadText<V>(d: Dialect<V>, t: Template<V>, n: nat, start: nat, embedParams: bool): string
    requires WellFormed(t) && n <= |t.values|
    decreases t, 1, n
  {
    if n == 0 then t.parts[0]
    else
      ReadText(d, t, n - 1, start, embedParams) +
      ReadValue(d, t, n, start + |ReadParams(t, n - 1)|, embedParams) + Stripped(t.parts[n])
  }

  // ---------------------------------------------------------------- the builder

  /** The builder returned by the `SQL` tag. */
  method Sql<V>(t: Template<V>, d: Dialect<V>, startIndex: nat, embedParams: bool)
    returns (text: string, params: seq<V>)
    requires WellFormed(t)
    ensures text == ReadText(d, t, |t.values|, startIndex, embedParams) && params == ReadParams(t, |t.values|)
    ensures var pieces := Pieces(d, t, |t.values|);
      text == QueryText(d, pieces, startIndex, embedParams) && params == Parameters(pieces)
    decreases t, 1
  {
    hide ValuePieces, ReadText, ReadParams, ReadValue, BoundText, EmbeddedText, Parameters;
    PiecesRead(d, t, |t.values|, startIndex, embedParams);
    text, params := t.parts[0], [];
    var index := startIndex;
    TwoPieces(d, Text(""), text, startIndex, embedParams);
    for i := 0 to |t.values|
      invariant index == startIndex + |params|
      invariant text == QueryText(d, Pieces(d, t, i), startIndex, embedParams)
      invariant params == Parameters(Pieces(d, t, i))
    {
      var valueText, valueParams := AppendValue(t, i, d, index, embedParams);
      PiecesConcat(d, Pieces(d, t, i), ValuePieces(d, t, i), startIndex);
      index := index + |valueParams|;
      params := params + valueParams;
      text := text + valueText;
    }
  }

  /** The texts and parameters that the loop adds for one value. */
  method AppendValue<V>(t: Template<V>, i: nat, d: Dialect<V>, startIndex: nat, embedParams: bool)
    returns (text: string, params: seq<V>)
    requires WellFormed(t) && i < |t.values|
    ensures text == ReadValue(d, t, i + 1, startIndex, embedParams) + Stripped(t.parts[i + 1])
    ensures text == QueryText(d, ValuePieces(d, t, i), startIndex, embedParams)
    ensures params == Parameters(ValuePieces(d, t, i))
    decreases t, 0
  {
    hide QueryText, Parameters, Pieces, ReadText, ReadParams, ReadValue, Stripped;
    ValuePiecesRead(d, t, i + 1, startIndex, embedParams);
    var value, nextPart := t.values[i], t.parts[i + 1];
    params := [];
    if StartsWith(nextPart, IDENT) {
      text := d.asIdentifier(value) + nextPart[|IDENT|..];
      TwoPieces(d, Text(d.asIdentifier(value)), nextPart[|IDENT|..], startIndex, embedParams);
    } else if StartsWith(nextPart, LITERAL) {
      text := d.asLiteral(value) + nextPart[|LITERAL|..];
      TwoPieces(d, Text(d.asLiteral(value)), nextPart[|LITERAL|..], startIndex, embedParams);
    } else {
      match value {
        case Nested(inner) =>
          assert value in t.values;
          text, params := Sql(inner, d, startIndex, embedParams);
          text := text + nextPart;
          OnePiece(d, Pieces(d, inner, |inner.values|), nextPart, startIndex, embedParams);
        case Plain(v) =>
          params := [v];
          if embedParams {
            text := d.asLiteral(value) + nextPart;
          } else {
            text := (if d.appendIndex then d.placeholder + Decimal(startIndex + 1) else d.placeholder) + nextPart;
          }
          TwoPieces(d, Parameter(v), nextPart, startIndex, embedParams);
      }
    }
  }

  lemma OnePiece<V>(d: Dialect<V>, pieces: seq<Piece<V>>, next: string, start: nat, embedParams: bool)
    ensures QueryText(d, pieces + [Text(next)], start, embedParams) == QueryText(d, pieces, start, embedParams) + next
    ensures Parameters(pieces + [Text(next)]) == Parameters(pieces)
  {
    PiecesConcat(d, pieces, [Text(next)], start);
    assert next + "" == next;
  }

  lemma TextPiece<V>(d: Dialect<V>, text: string, start: nat)
    ensures BoundText(d, [Text(text)], start) == text && EmbeddedText(d, [Text(text)]) == text
    ensures Parameters<V>([Text(text)]) == []
  {
    var one: seq<Piece<V>> := [Text(text)];
    assert one[1..] == [] && text + "" == text;
    assert BoundText(d, one, start) == text + BoundText(d, one[1..], start);
    assert EmbeddedText(d, one) == text + EmbeddedText(d, one[1..]);
  }

  lemma TwoPieces<V>(d: Dialect<V>, first: Piece<V>, next: string, start: nat, embedParams: bool)
    ensures QueryText(d, [Text(next)], start, embedParams) == next && Parameters<V>([Text(next)]) == []
    ensures Parameters([first, Text(next)]) == if first.Text? then [] else [first.v]
    ensures QueryText(d, [first, Text(next)], start, embedParams) ==
            (if first.Text? then first.text
             else if embedParams then d.asLiteral(Plain(first.v))
             else d.placeholder + if d.appendIndex then Decimal(start + 1) else "") + next
  {
    assert [first, Text(next)][1..] == [Text(next)];
    TextPiece(d, next, start);
    TextPiece(d, next, start + 1);
  }

  /** The text of one piece, where `index` numbers its placeholder. */
  function PieceText<V>(d: Dialect<V>, piece: Piece<V>, index: nat, embedParams: bool): string {
    if piece.Text? then piece.text
    else if embedParams then d.asLiteral(Plain(piece.v))
    else d.placeholder + if d.appendIndex then Decimal(index) else ""
  }

  lemma FirstPiece<V>(d: Dialect<V>, pieces: seq<Piece<V>>, start: nat)
    requires pieces != []
    ensures var next := if pieces[0].Parameter? then start + 1 else start;
      && Parameters(pieces) == (if pieces[0].Parameter? then [pieces[0].v] else []) + Parameters(pieces[1..])
      && EmbeddedText(d, pieces) == PieceText(d, pieces[0], next, true) + EmbeddedText(d, pieces[1..])
      && BoundText(d, pieces, start) == PieceText(d, pieces[0], next, false) + BoundText(d, pieces[1..], next)
  {
  }

  /** Placeholders of the second of two consecutive queries are numbered on after those of the first. */
  lemma {:induction false} PiecesConcat<V>(d: Dialect<V>, a: seq<Piece<V>>, b: seq<Piece<V>>, start: nat)
    ensures Parameters(a + b) == Parameters(a) + Parameters(b)
    ensures BoundText(d, a + b, start) == BoundText(d, a, start) + BoundText(d, b, start + |Parameters(a)|)
    ensures EmbeddedText(d, a + b) == EmbeddedText(d, a) + EmbeddedText(d, b)
  {
    if a == [] {
      assert a + b == b;
    } else {
      hide Parameters, BoundText, EmbeddedText, PieceText;
      var next := if a[0].Parameter? then start + 1 else start;
      PiecesConcat(d, a[1..], b, next);
      DropFirst(a, b);
      FirstPiece(d, a, start);
      FirstPiece(d, a + b, start);
      Associative(if a[0].Parameter? then [a[0].v] else [], Parameters(a[1..]), Parameters(b));
      Associative(PieceText(d, a[0], next, true), EmbeddedText(d, a[1..]), EmbeddedText(d, b));
      Associative(PieceText(d, a[0], next, false), BoundText(d, a[1..], next),
          BoundText(d, b, start + |Parameters(a)|));
    }
  }

  lemma ValuePiecesRead<V>(d: Dialect<V>, t: Template<V>, n: nat, start: nat, embedParams: bool)
    requires WellFormed(t) && 0 < n <= |t.values|
    ensures QueryText(d, ValuePieces(d, t, n - 1), start, embedParams) ==
            ReadValue(d, t, n, start, embedParams) + Stripped(t.parts[n])
    ensures ReadParams(t, n) == ReadParams(t, n - 1) + Parameters(ValuePieces(d, t, n - 1))
    decreases t, 0
  {
    hide QueryText, Parameters, Pieces, ReadText;
    var value, next := t.values[n - 1], t.parts[n];
    assert StartsWith(next, IDENT) <==> AnnotationOf(next) == AsIdentifier;
    assert AnnotationOf(next) != AsIdentifier ==> (StartsWith(next, LITERAL) <==> AnnotationOf(next) == AsLiteral);
    match AnnotationOf(next)
    case AsIdentifier =>
      TwoPieces(d, Text(d.asIdentifier(value)), Stripped(next), start, embedParams);
    case AsLiteral =>
      TwoPieces(d, Text(d.asLiteral(value)), Stripped(next), start, embedParams);
    case Unannotated =>
      match value
      case Nested(inner) =>
        assert value in t.values;
        PiecesRead(d, inner, |inner.values|, start, embedParams);
        OnePiece(d, Pieces(d, inner, |inner.values|), next, start, embedParams);
      case Plain(v) =>
        TwoPieces(d, Parameter(v), next, start, embedParams);
  }

  /** The flat query of a template is the template read as text. */
  lemma {:induction false} PiecesRead<V>(d: Dialect<V>, t: Template<V>, n: nat, start: nat, embedParams: bool)
    requires WellFormed(t) && n <= |t.values|
    ensures QueryText(d, Pieces(d, t, n), start, embedParams) == ReadText(d, t, n, start, embedParams)
    ensures Parameters(Pieces(d, t, n)) == ReadParams(t, n)
    decreases t, 1, n
  {
    hide QueryText, Parameters, ValuePieces, ReadValue, Pieces, ReadText, ReadParams, Stripped;
    if n == 0 {
      NoValues(d, t, start, embedParams);
    } else {
      PiecesRead(d, t, n - 1, start, embedParams);
      var index := start + |ReadParams(t, n - 1)|;
      ValuePiecesRead(d, t, n, index, embedParams);
      QueriesConcat(d, Pieces(d, t, n - 1), ValuePieces(d, t, n - 1), start, embedParams);
      Associative(ReadText(d, t, n - 1, start, embedParams), ReadValue(d, t, n, index, embedParams),
        Stripped(t.parts[n]));
      PiecesNext(d, t, n, start, embedParams);
    }
  }

  lemma NoValues<V>(d: Dialect<V>, t: Template<V>, start: nat, embedParams: bool)
    requires WellFormed(t)
    ensures QueryText(d, Pieces(d, t, 0), start, embedParams) == ReadText(d, t, 0, start, embedParams) == t.parts[0]
    ensures Parameters(Pieces(d, t, 0)) == ReadParams(t, 0) == []
  {
    hide BoundText, EmbeddedText, Parameters;
    TextPiece(d, t.parts[0], start);
  }

  lemma QueriesConcat<V>(d: Dialect<V>, a: seq<Piece<V>>, b: seq<Piece<V>>, start: nat, embedParams: bool)
    ensures Parameters(a + b) == Parameters(a) + Parameters(b)
    ensures QueryText(d, a + b, start, embedParams) ==
            QueryText(d, a, start, embedParams) + QueryText(d, b, start + |Parameters(a)|, embedParams)
  {
    hide BoundText, EmbeddedText, Parameters;
    PiecesConcat(d, a, b, start);
  }

  lemma PiecesNext<V>(d: Dialect<V>, t: Template<V>, n: nat, start: nat, embedParams: bool)
    requires WellFormed(t) && 0 < n <= |t.values|
    ensures Pieces(d, t, n) == Pieces(d, t, n - 1) + ValuePieces(d, t, n - 1)
    ensures ReadText(d, t, n, start, embedParams) ==
            ReadText(d, t, n - 1, start, embedParams) +
            ReadValue(d, t, n, start + |ReadParams(t, n - 1)|, embedParams) + Stripped(t.parts[n])
  {
  }

  // ---------------------------------------------------------------- reading the query text

  predicate IsDigit(c: char) {
    '0' <= c <= '9'
  }

  /** The numbers of the placeholders `$1`, `$2`, ... that a database reads in a query text. */
  function Numbers(text: string): seq<nat>
    decreases |text|
  {
    if text == "" then []
    else if text[0] != '$' then Numbers(text[1..])
    else
      var n := DigitCount(text[1..]);
      [DecimalValue(text[1..][..n])] + Numbers(text[1..][n..])
  }

  /** The query text with each placeholder `$k` replaced by the k-th literal. */
  function Substituted(text: string, literals: seq<string>): string
    decreases |text|
  {
    if text == "" then ""
    else if text[0] != '$' then [text[0]] + Substituted(text[1..], literals)
    else
      var n := DigitCount(text[1..]);
      var k := DecimalValue(text[1..][..n]);
      (if 1 <= k <= |literals| then literals[k - 1] else "") + Substituted(text[1..][n..], literals)
  }

  /** The texts do not contain the placeholder character. */
  ghost predicate Plainly<V>(pieces: seq<Piece<V>>) {
    forall p <- pieces :: p.Text? ==> '$' !in p.text
  }

  /** No parameter is directly followed by a digit. */
  predicate Separated<V>(pieces: seq<Piece<V>>) {
    pieces != [] ==> Separated(pieces[1..]) && (pieces[0].Parameter? ==> !DigitFirst(pieces[1..]))
  }

  predicate DigitFirst<V>(pieces: seq<Piece<V>>) {
    pieces != [] && pieces[0].Text? &&
    (if pieces[0].text == "" then DigitFirst(pieces[1..]) else IsDigit(pieces[0].text[0]))
  }

  function Ascending(from: nat, n: nat): seq<nat>
    decreases n
  {
    if n == 0 then [] else [from] + Ascending(from + 1, n - 1)
  }

  /** Postgres writes placeholders as `$1`, `$2`, ... */
  predicate IsNumbering<V>(d: Dialect<V>) {
    d.placeholder == "$" && d.appendIndex
  }

  lemma SkipChar(text: string, literals: seq<string>)
    requires text != "" && text[0] != '$'
    ensures Numbers(text) == Numbers(text[1..])
    ensures Substituted(text, literals) == [text[0]] + Substituted(text[1..], literals)
  {
  }

  lemma {:induction false} SkipText(text: string, rest: string, literals: seq<string>)
    requires '$' !in text
    ensures Numbers(text + rest) == Numbers(rest)
    ensures Substituted(text + rest, literals) == text + Substituted(rest, literals)
  {
    if text == "" {
      assert text + rest == rest && text + Substituted(rest, literals) == Substituted(rest, literals);
    } else {
      hide Numbers, Substituted;
      SkipText(text[1..], rest, literals);
      DropFirst(text, rest);
      SkipChar(text + rest, literals);
      assert [text[0]] + text[1..] == text;
      Associative([text[0]], text[1..], Substituted(rest, literals));
    }
  }

  lemma {:induction false} DigitFirstMeans<V>(d: Dialect<V>, pieces: seq<Piece<V>>, start: nat)
    requires d.placeholder == "$"
    ensures var text := BoundText(d, pieces, start);
      DigitFirst(pieces) <==> text != "" && IsDigit(text[0])
  {
    if pieces != [] && pieces[0] == Text("") {
      DigitFirstMeans(d, pieces[1..], start);
    }
  }

  lemma {:induction false} CountDigits(digits: string, rest: string)
    requires AllDigits(digits)
    ensures DigitCount(digits + rest) == |digits| + DigitCount(rest)
  {
    if digits == "" {
      assert digits + rest == rest;
    } else {
      CountDigits(digits[1..], rest);
      assert (digits + rest)[1..] == digits[1..] + rest;
    }
  }

  lemma {:induction false} MoreDigits(digits: string, more: string)
    requires AllDigits(digits) && AllDigits(more)
    ensures AllDigits(digits + more) && DecimalValue(digits + more) >= DecimalValue(digits)
    ensures more != "" && DecimalValue(digits) > 0 ==> DecimalValue(digits + more) > DecimalValue(digits)
  {
    if more == "" {
      assert digits + more == digits;
    } else {
      var n := |more| - 1;
      MoreDigits(digits, more[..n]);
      assert (digits + more)[..|digits| + n] == digits + more[..n];
    }
  }

  /** A number is read back as written exactly if no digit follows it. */
  lemma ReadNumber(k: nat, rest: string)
    requires k > 0
    ensures var text := Decimal(k) + rest;
      var m := DigitCount(rest);
      var n := |Decimal(k)| + m;
      && DigitCount(text) == n && text[n..] == rest[m..]
      && (DecimalValue(text[..n]) == k <==> m == 0)
  {
    hide Decimal, DecimalValue;
    var text, m := Decimal(k) + rest, DigitCount(rest);
    var more := rest[..m];
    CountDigits(Decimal(k), rest);
    assert text[..|Decimal(k)| + m] == Decimal(k) + more;
    DecimalValueOfDecimal(k);
    MoreDigits(Decimal(k), more);
    assert more == "" ==> Decimal(k) + more == Decimal(k);
  }

  lemma ReadPlaceholder(k: nat, rest: string, literals: seq<string>)
    requires k > 0
    ensures var text := "$" + Decimal(k) + rest;
      var digit := rest != "" && IsDigit(rest[0]);
      && Numbers(text) != [] && Numbers(text)[1..] == Numbers(rest) && (Numbers(text)[0] == k <==> !digit)
      && (!digit && k <= |literals| ==> Substituted(text, literals) == literals[k - 1] + Substituted(rest, literals))
  {
    hide Decimal, DecimalValue;
    var text := "$" + Decimal(k) + rest;
    assert text[1..] == Decimal(k) + rest;
    ReadNumber(k, rest);
    SkipDigits(rest, DigitCount(rest));
    assert rest[0..] == rest;
  }

  lemma {:induction false} SkipDigits(rest: string, n: nat)
    requires n <= DigitCount(rest)
    ensures Numbers(rest[n..]) == Numbers(rest)
  {
    assert rest == rest[..n] + rest[n..];
    SkipText(rest[..n], rest[n..], []);
  }

  /**
   * The placeholders of the query text are numbered in ascending order from left to right,
   * however deep their templates are nested, exactly if no digit directly follows a value.
   */
  lemma {:induction false} NumberedInOrder<V>(d: Dialect<V>, pieces: seq<Piece<V>>, start: nat)
    requires IsNumbering(d) && Plainly(pieces)
    ensures var numbers := Numbers(BoundText(d, pieces, start));
      && |numbers| == |Parameters(pieces)|
      && (numbers == Ascending(start + 1, |Parameters(pieces)|) <==> Separated(pieces))
  {
    hide Decimal, Numbers;
    if pieces == [] {
      assert Numbers("") == [] by {
        NoNumbers();
      }
    } else {
      var rest := BoundText(d, pieces[1..], if pieces[0].Text? then start else start + 1);
      match pieces[0]
      case Text(text) =>
        NumberedInOrder(d, pieces[1..], start);
        SkipText(text, rest, []);
      case Parameter(v) =>
        var k := start + 1;
        NumberedInOrder(d, pieces[1..], k);
        DigitFirstMeans(d, pieces[1..], k);
        ReadPlaceholder(k, rest, []);
        var numbers := Numbers("$" + Decimal(k) + rest);
        assert numbers == [numbers[0]] + Numbers(rest);
        assert Parameters(pieces) == [v] + Parameters(pieces[1..]);
        var n := |Parameters(pieces[1..])|;
        assert Ascending(k, n + 1)[1..] == Ascending(k + 1, n);
    }
  }

  lemma NoNumbers()
    ensures Numbers("") == []
  {
  }

  function Literals<V>(d: Dialect<V>, params: seq<V>): seq<string> {
    seq(|params|, i requires 0 <= i < |params| => d.asLiteral(Plain(params[i])))
  }

  /** Filling in the parameters' literals for the placeholders yields the text with embedded parameters. */
  lemma {:induction false} SubstitutedIsEmbedded<V>(d: Dialect<V>, pieces: seq<Piece<V>>, start: nat,
          literals: seq<string>)
    requires IsNumbering(d) && Plainly(pieces) && Separated(pieces)
    requires start + |Parameters(pieces)| <= |literals|
    requires literals[start..start + |Parameters(pieces)|] == Literals(d, Parameters(pieces))
    ensures Substituted(BoundText(d, pieces, start), literals) == EmbeddedText(d, pieces)
  {
    hide Decimal, Numbers;
    if pieces != [] {
      var rest := BoundText(d, pieces[1..], if pieces[0].Text? then start else start + 1);
      var more := Parameters(pieces[1..]);
      match pieces[0]
      case Text(text) =>
        assert Parameters(pieces) == more;
        SubstitutedIsEmbedded(d, pieces[1..], start, literals);
        SkipText(text, rest, literals);
      case Parameter(v) =>
        var k := start + 1;
        assert Parameters(pieces) == [v] + more;
        assert Literals(d, Parameters(pieces))[1..] == Literals(d, more);
        assert literals[k..k + |more|] == literals[start..k + |more|][1..];
        assert literals[start] == literals[start..k + |more|][0] == d.asLiteral(Plain(v));
        SubstitutedIsEmbedded(d, pieces[1..], k, literals);
        DigitFirstMeans(d, pieces[1..], k);
        ReadPlaceholder(k, rest, literals);
    }
  }

  /**
   * A nested template bound to its parameters means the same query as the one with its values
   * embedded: reading placeholders as the literals of the parameters gives the template with
   * literals for its plain values.
   */
  lemma BoundQueryMeansEmbedded<V>(d: Dialect<V>, t: Template<V>)
    requires WellFormed(t) && IsNumbering(d)
    requires Plainly(Pieces(d, t, |t.values|)) && Separated(Pieces(d, t, |t.values|))
    ensures var text, params := ReadText(d, t, |t.values|, 0, false), ReadParams(t, |t.values|);
      && Numbers(text) == Ascending(1, |params|)
      && Substituted(text, Literals(d, params)) == ReadText(d, t, |t.values|, 0, true)
  {
    hide Pieces, WellFormed, Plainly, Separated, Numbers, Substituted, Parameters, BoundText, EmbeddedText, Ascending,
      ReadText, ReadParams;
    var pieces := Pieces(d, t, |t.values|);
    PiecesRead(d, t, |t.values|, 0, false);
    PiecesRead(d, t, |t.values|, 0, true);
    var literals := Literals(d, Parameters(pieces));
    NumberedInOrder(d, pieces, 0);
    assert literals[0..|literals|] == literals;
    SubstitutedIsEmbedded(d, pieces, 0, literals);
  }
}
