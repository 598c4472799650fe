/** The address an `httpCall` goes to (packages/engine/src/actions/action-url.ts,
    packages/contracts/src/definition/action-checks.ts:119-121). */
module ActionUrls {
  import opened Outcomes
  import opened Definitions
  import opened RecordsMapper

  /** A template in pieces: text, and the keys of `/\{([^}]*)\}/g` between it. */
  datatype Piece = Literal(text: string) | Hole(key: string)

  function IndexOf(s: string, c: char): (n: nat)
    ensures n <= |s|
    ensures n < |s| ==> s[n] == c
    ensures forall i :: 0 <= i < n ==> s[i] != c
  {
    if s == "" || s[0] == c then 0 else 1 + IndexOf(s[1..], c)
  }

  /** A brace that nothing closes is text like any other. */
  function Pieces(url: string): seq<Piece>
    decreases |url|
  {
    var open := IndexOf(url, '{');
    if open == |url| then [Literal(url)]
    else
      var rest := url[open + 1..];
      var close := IndexOf(rest, '}');
      if close == |rest| then [Literal(url)]
      else [Literal(url[..open]), Hole(rest[..close])] + Pieces(rest[close + 1..])
  }

  function Holes(pieces: seq<Piece>): seq<string> {
    if pieces == [] then []
    else (if pieces[0].Hole? then [pieces[0].key] else []) + Holes(pieces[1..])
  }

  function FieldNamed(fields: seq<Field>, key: Key): Option<Field> {
    if fields == [] then None
    else if fields[0].key == key then Some(fields[0])
    else FieldNamed(fields[1..], key)
  }

  /** A relation is its key; a value with no single reading is no value. */
  function Readable(values: map<Key, RecordValue>, key: Key): Value {
    if key !in values then Null
    else
      match values[key]
      case Pointer(id, _) => id
      case Plain(v) => if v.Opaque? then Null else v
  }

  /** What a record has to say for a placeholder: a plain value that can be written
      one way, or the key a relation holds. */
  ghost predicate Says(values: map<Key, RecordValue>, key: Key, v: Value) {
    && v != Null && key in values
    && ((values[key] == Plain(v) && !v.Opaque?) || exists name :: values[key] == Pointer(v, name))
  }

  lemma ReadableIsWhatItSays(values: map<Key, RecordValue>, key: Key, v: Value)
    ensures v != Null ==> (Readable(values, key) == v <==> Says(values, key, v))
    ensures Readable(values, key) == Null <==> forall said :: !Says(values, key, said)
  {
    assert Readable(values, key) != Null ==> Says(values, key, Readable(values, key)) by {
      if key in values && values[key].Pointer? {
        assert values[key] == Pointer(values[key].id, values[key].name);
      }
    }
  }

  /** `write` is what a value looks like once it is percent-encoded text. */
  function Fill(resource: Resource, key: Key, values: map<Key, RecordValue>, write: Value -> string): Outcome<string> {
    var field := FieldNamed(resource.fields, key);
    if field.None? || field.value.sensitive then Err(Unservable)
    else if Readable(values, key) == Null then Err(InvalidQuery)
    else Ok(write(Readable(values, key)))
  }

  function Resolve(
    resource: Resource, pieces: seq<Piece>, values: map<Key, RecordValue>, write: Value -> string): Outcome<string>
  {
    if pieces == [] then Ok("")
    else
      var first :- match pieces[0]
                   case Literal(text) => Ok(text)
                   case Hole(key) => Fill(resource, key, values, write);
      var rest :- Resolve(resource, pieces[1..], values, write);
      Ok(first + rest)
  }

  function ActionUrl(resource: Resource, url: string, values: map<Key, RecordValue>, write: Value -> string): Outcome<string> {
    Resolve(resource, Pieces(url), values, write)
  }

  /** Whatever the definition: no placeholder is filled from a secret, or from a field
      that is not declared. */
  lemma {:induction false} NoSecretFillsAPlaceholder(
    resource: Resource, pieces: seq<Piece>, values: map<Key, RecordValue>, write: Value -> string, i: nat)
    requires i < |pieces| && pieces[i].Hole?
    requires var field := FieldNamed(resource.fields, pieces[i].key); field.None? || field.value.sensitive
    ensures Resolve(resource, pieces, values, write).Err?
    ensures i == 0 ==> Resolve(resource, pieces, values, write) == Err(Unservable)
  {
    if i > 0 {
      assert pieces[1..][i - 1] == pieces[i];
      NoSecretFillsAPlaceholder(resource, pieces[1..], values, write, i - 1);
    }
  }

  /** A template as it was written. */
  function Rebuilt(pieces: seq<Piece>): string {
    if pieces == [] then ""
    else
      (match pieces[0] case Literal(text) => text case Hole(key) => "{" + key + "}") + Rebuilt(pieces[1..])
  }

  lemma TwoPiecesMore(text: string, key: string, pieces: seq<Piece>)
    ensures Rebuilt([Literal(text), Hole(key)] + pieces) == text + ("{" + key + "}" + Rebuilt(pieces))
  {
    var all := [Literal(text), Hole(key)] + pieces;
    assert all[1..] == [Hole(key)] + pieces;
    assert all[1..][1..] == pieces;
    assert Rebuilt(all[1..]) == "{" + key + "}" + Rebuilt(pieces);
  }

  lemma CutAt(s: string, n: nat)
    requires n < |s|
    ensures s == s[..n] + ([s[n]] + s[n + 1..])
  {
  }

  lemma Braced(key: string, tail: string)
    ensures "{" + (key + ("}" + tail)) == "{" + key + "}" + tail
  {
  }

  /** The first placeholder of a template that has one. */
  lemma OnePlaceholder(url: string, open: nat, close: nat)
    requires open == IndexOf(url, '{') < |url|
    requires close == IndexOf(url[open + 1..], '}') < |url[open + 1..]|
    ensures var rest := url[open + 1..];
            Pieces(url) == [Literal(url[..open]), Hole(rest[..close])] + Pieces(rest[close + 1..])
  {
    hide IndexOf;
  }

  lemma AroundIt(url: string, open: nat, close: nat)
    requires open < |url| && url[open] == '{'
    requires open + 1 + close < |url| && url[open + 1..][close] == '}'
    ensures var rest := url[open + 1..];
            url == url[..open] + ("{" + rest[..close] + "}" + rest[close + 1..])
  {
    var rest := url[open + 1..];
    CutAt(url, open);
    CutAt(rest, close);
    Braced(rest[..close], rest[close + 1..]);
  }

  lemma NoPlaceholder(url: string)
    requires IndexOf(url, '{') == |url| || IndexOf(url[IndexOf(url, '{') + 1..], '}') == |url[IndexOf(url, '{') + 1..]|
    ensures Pieces(url) == [Literal(url)]
  {
    hide IndexOf;
  }

  /** A placeholder ends at the first brace that closes it. */
  ghost predicate EndsAtOnce(piece: Piece) {
    piece.Hole? ==> '}' !in piece.key
  }

  lemma {:induction false} PlaceholdersEndAtOnce(url: string)
    ensures forall piece :: piece in Pieces(url) ==> EndsAtOnce(piece)
    decreases |url|
  {
    hide IndexOf;
    var open := IndexOf(url, '{');
    if open < |url| && IndexOf(url[open + 1..], '}') < |url[open + 1..]| {
      PlaceholdersEndAtOnce(url[open + 1..][IndexOf(url[open + 1..], '}') + 1..]);
    }
  }

  /** Taking a template apart loses nothing of it: every brace that is closed is a
      placeholder, up to the first one that closes it, and the rest is text. */
  lemma {:induction false} TakingApartLosesNothing(url: string)
    ensures Rebuilt(Pieces(url)) == url
    ensures forall piece :: piece in Pieces(url) ==> EndsAtOnce(piece)
    decreases |url|
  {
    hide IndexOf, Rebuilt, EndsAtOnce, Pieces;
    PlaceholdersEndAtOnce(url);
    var open := IndexOf(url, '{');
    if open == |url| || IndexOf(url[open + 1..], '}') == |url[open + 1..]| {
      NoPlaceholder(url);
      TextAlone(url);
    } else {
      var close := IndexOf(url[open + 1..], '}');
      var tail := url[open + 1..][close + 1..];
      OnePlaceholder(url, open, close);
      AroundIt(url, open, close);
      TakingApartLosesNothing(tail);
      TwoPiecesMore(url[..open], url[open + 1..][..close], Pieces(tail));
    }
  }

  /** No brace that opens in it is closed. */
  ghost predicate Unclosed(text: string) {
    forall i, j :: 0 <= i < j < |text| && text[i] == '{' ==> text[j] != '}'
  }

  /** Text and placeholders by turns, the text first and last; no brace in the text
      before a placeholder, and none that is closed after the last. */
  ghost predicate Thorough(pieces: seq<Piece>) {
    pieces != [] && pieces[0].Literal? &&
    if |pieces| == 1 then Unclosed(pieces[0].text)
    else '{' !in pieces[0].text && pieces[1].Hole? && Thorough(pieces[2..])
  }

  lemma UnclosedAfterTheFirst(text: string, open: nat)
    requires open < |text| && (forall i :: 0 <= i < open ==> text[i] != '{')
    requires '}' !in text[open + 1..]
    ensures Unclosed(text)
  {
    forall i, j | 0 <= i < j < |text| && text[i] == '{' ensures text[j] != '}' {
      assert text[j] == text[open + 1..][j - open - 1];
    }
  }

  /** No placeholder is missed: a brace left in the text is one nothing closes. */
  lemma {:induction false} EveryClosedBraceIsAPlaceholder(url: string)
    ensures Thorough(Pieces(url))
    decreases |url|
  {
    hide IndexOf, Unclosed, Pieces;
    var open := IndexOf(url, '{');
    if open == |url| {
      NoPlaceholder(url);
      NoneOpen(url);
    } else {
      var rest := url[open + 1..];
      var close := IndexOf(rest, '}');
      if close == |rest| {
        NoPlaceholder(url);
        UnclosedAfterTheFirst(url, open);
      } else {
        OnePlaceholder(url, open, close);
        EveryClosedBraceIsAPlaceholder(rest[close + 1..]);
        TwoMoreAreThorough(url[..open], rest[..close], Pieces(rest[close + 1..]));
      }
    }
  }

  lemma TwoMoreAreThorough(text: string, key: string, pieces: seq<Piece>)
    requires '{' !in text && Thorough(pieces)
    ensures Thorough([Literal(text), Hole(key)] + pieces)
  {
    assert ([Literal(text), Hole(key)] + pieces)[2..] == pieces;
  }

  lemma NoneOpen(text: string)
    requires forall i :: 0 <= i < |text| ==> text[i] != '{'
    ensures Unclosed(text)
  {
  }

  lemma TextAlone(url: string)
    ensures Rebuilt([Literal(url)]) == url
  {
    assert [Literal(url)][1..] == [];
    assert url + "" == url;
  }

  /** An address is its template with each placeholder's text put in its place. */
  lemma {:induction false} ResolvingFillsTheTemplate(
    resource: Resource, pieces: seq<Piece>, values: map<Key, RecordValue>, write: Value -> string)
    requires Resolve(resource, pieces, values, write).Ok?
    ensures Resolve(resource, pieces, values, write).value == Rebuilt(Written(pieces, values, write))
    ensures forall h :: h in Holes(pieces) ==> Readable(values, h) != Null
  {
    if pieces != [] {
      ResolvingFillsTheTemplate(resource, pieces[1..], values, write);
      assert Written(pieces, values, write)[1..] == Written(pieces[1..], values, write);
    }
  }

  /** Each placeholder's value written out, and the text around it as it is. */
  function Written(pieces: seq<Piece>, values: map<Key, RecordValue>, write: Value -> string): (w: seq<Piece>)
    ensures |w| == |pieces|
  {
    seq(|pieces|, i requires 0 <= i < |pieces| =>
      if pieces[i].Hole? then Literal(write(Readable(values, pieces[i].key))) else pieces[i])
  }
}
