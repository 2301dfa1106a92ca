/**
 Function names of the generated TypeScript client (backend/api_contracts.py).

 Operations are taken in the order in which they are generated. Upper case is ASCII upper case.
 */
module ApiNames {
  import opened Decimals
  import opened Texts

  datatype Method = Get | Post | Put | Patch | Delete

  function Prefix(m: Method): string {
    match m
    case Get => "get"
    case Post => "post"
    case Put => "put"
    case Patch => "patch"
    case Delete => "delete"
  }

  datatype Operation = Operation(path: string, verb: Method)

  // ---------- The base name ----------

  /** `re.sub(r"[{}]", "", path)`. */
  function Unbraced(path: string): string {
    if path == "" then ""
    else
      var before, c := Unbraced(path[..|path| - 1]), path[|path| - 1];
      if c == '{' || c == '}' then before else before + [c]
  }

  function WithoutApi(path: string): string {
    if StartsWith(path, "/api/") then path[5..] else path
  }

  predicate IsSeparator(c: char) { c == '/' || c == '_' || c == '-' }

  /** `re.split(r"[/_\-]+", text)`: the pieces between runs of separators, possibly empty at the two ends. */
  function Split(text: string): (pieces: seq<string>)
    ensures pieces != []
  {
    if text == "" then [""]
    else
      var n := |text| - 1;
      var before, c := Split(text[..n]), text[n];
      if !IsSeparator(c) then before[..|before| - 1] + [before[|before| - 1] + [c]]
      else if n > 0 && IsSeparator(text[n - 1]) then before
      else before + [""]
  }

  function Capitalized(piece: string): string {
    if piece == "" then "" else [UpperChar(piece[0])] + piece[1..]
  }

  function Camel(first: string, pieces: seq<string>): string {
    if pieces == [] then first else Camel(first, pieces[..|pieces| - 1]) + Capitalized(pieces[|pieces| - 1])
  }

  function BaseName(op: Operation): string {
    Camel(Prefix(op.verb), Split(WithoutApi(Unbraced(op.path))))
  }

  lemma CamelNext(first: string, parts: seq<string>, k: nat)
    requires k < |parts|
    ensures Camel(first, parts[..k + 1]) ==
            if parts[k] == "" then Camel(first, parts[..k])
            else Camel(first, parts[..k]) + [UpperChar(parts[k][0])] + parts[k][1..]
  {
    assert parts[..k + 1][..k] == parts[..k];
    assert parts[k] == "" ==> Camel(first, parts[..k]) + "" == Camel(first, parts[..k]);
  }

  method PathToMethodName(op: Operation) returns (name: string)
    ensures name == BaseName(op)
  {
    var clean := WithoutApi(Unbraced(op.path));
    var parts := Split(clean);
    var nameParts: seq<string> := [];
    name := Prefix(op.verb);
    var k := 0;
    assert parts[..0] == [];
    while k < |parts|
      invariant 0 <= k <= |parts| && name == Camel(Prefix(op.verb), parts[..k])
    {
      CamelNext(Prefix(op.verb), parts, k);
      if parts[k] != "" {
        name := name + [UpperChar(parts[k][0])] + parts[k][1..];
      }
      assert name == Camel(Prefix(op.verb), parts[..k + 1]);
      k := k + 1;
    }
    assert parts[..k] == parts;
  }

  /** The pieces of a path, each after a slash. */
  function Slashed(pieces: seq<string>): string {
    if pieces == [] then "" else Slashed(pieces[..|pieces| - 1]) + "/" + pieces[|pieces| - 1]
  }

  predicate IsPiece(piece: string) {
    piece != "" && forall c :: c in piece ==> !IsSeparator(c)
  }

  lemma {:induction false} SplitAppend(text: string, piece: string)
    requires text != "" && IsSeparator(text[|text| - 1]) && IsPiece(piece)
    ensures Split(text + piece) == Split(text)[..|Split(text)| - 1] + [Split(text)[|Split(text)| - 1] + piece]
  {
    var n := |piece| - 1;
    assert text + piece == (text + piece[..n]) + [piece[n]];
    assert (text + piece)[..|text| + n] == text + piece[..n];
    if n == 0 {
      assert text + piece[..0] == text && [piece[0]] == piece;
    } else {
      SplitAppend(text, piece[..n]);
      var last := Split(text)[|Split(text)| - 1];
      assert last + piece[..n] + [piece[n]] == last + piece;
    }
  }

  lemma SplitSlash(text: string)
    requires text == "" || !IsSeparator(text[|text| - 1])
    ensures Split(text + "/") == Split(text) + [""]
  {
    assert (text + "/")[..|text|] == text;
  }

  lemma SlashedEnds(pieces: seq<string>)
    requires forall p :: p in pieces ==> IsPiece(p)
    ensures Slashed(pieces) == "" || !IsSeparator(Slashed(pieces)[|Slashed(pieces)| - 1])
  {
    if pieces != [] {
      var last := pieces[|pieces| - 1];
      assert last in pieces && last[|last| - 1] in last;
    }
  }

  /** Splitting a path gives back its pieces, after the empty one before the first slash. */
  lemma {:induction false} SplitIsInverse(pieces: seq<string>)
    requires forall p :: p in pieces ==> IsPiece(p)
    ensures Split(Slashed(pieces)) == [""] + pieces
  {
    if pieces != [] {
      var init, last := pieces[..|pieces| - 1], pieces[|pieces| - 1];
      SplitIsInverse(init);
      SlashedEnds(init);
      assert last in pieces;
      SplitOneMore(Slashed(init), last, [""] + init);
      assert pieces == init + [last];
    }
  }

  lemma {:induction false} SplitOneMore(text: string, piece: string, pieces: seq<string>)
    requires text == "" || !IsSeparator(text[|text| - 1])
    requires Split(text) == pieces && IsPiece(piece)
    ensures Split(text + "/" + piece) == pieces + [piece]
  {
    SplitSlash(text);
    SplitAppend(text + "/", piece);
    assert "" + piece == piece;
  }

  // ---------- How a base name is put together ----------

  /** `raised` is the piece with its first letter in upper case. */
  predicate Raises(piece: string, raised: string) {
    if piece == "" then raised == ""
    else
      && |raised| == |piece| && raised[1..] == piece[1..]
      && if 'a' <= piece[0] <= 'z' then raised[0] as int == piece[0] as int - 32 else raised[0] == piece[0]
  }

  lemma RaisesFirst(piece: string)
    ensures Raises(piece, Capitalized(piece))
  {}

  lemma {:induction false} CamelPrefix(first: string, pieces: seq<string>, k: nat)
    requires k <= |pieces|
    ensures Camel(first, pieces[..k]) <= Camel(first, pieces)
  {
    if k == |pieces| {
      assert pieces[..k] == pieces;
    } else {
      CamelPrefix(first, pieces[..|pieces| - 1], k);
      assert pieces[..|pieces| - 1][..k] == pieces[..k];
    }
  }

  /** The verb comes first, then every piece in its place with its first letter raised. */
  lemma PieceAt(first: string, pieces: seq<string>, k: nat)
    requires k < |pieces|
    ensures var before, after := Camel(first, pieces[..k]), Camel(first, pieces[..k + 1]);
            before <= after <= Camel(first, pieces) && Raises(pieces[k], after[|before|..])
    ensures Camel(first, []) == first
  {
    CamelPrefix(first, pieces, k + 1);
    assert pieces[..k + 1][..k] == pieces[..k];
    RaisesFirst(pieces[k]);
    var before := Camel(first, pieces[..k]);
    assert (before + Capitalized(pieces[k]))[|before|..] == Capitalized(pieces[k]);
  }

  /** Braces are taken out and all else is kept. */
  lemma {:induction false} UnbracedConcat(a: string, b: string)
    ensures Unbraced(a + b) == Unbraced(a) + Unbraced(b)
    ensures |a| == 1 ==> Unbraced(a) == if a[0] == '{' || a[0] == '}' then "" else a
  {
    if b == "" {
      assert a + b == a;
    } else {
      UnbracedConcat(a, b[..|b| - 1]);
      assert (a + b)[..|a + b| - 1] == a + b[..|b| - 1];
    }
  }

  lemma {:induction false} PlainPath(text: string)
    requires '{' !in text && '}' !in text
    ensures Unbraced(text) == text
  {
    if text != "" {
      PlainPath(text[..|text| - 1]);
      assert text[|text| - 1] in text;
    }
  }

  /** A path of plain pieces below "/api" is named by the verb and those pieces. */
  lemma {:induction false} BaseOfApiPath(verb: Method, piece: string, pieces: seq<string>)
    requires IsPiece(piece) && forall p :: p in pieces ==> IsPiece(p)
    requires forall p :: p in [piece] + pieces ==> '{' !in p && '}' !in p
    ensures BaseName(Operation("/api/" + piece + Slashed(pieces), verb)) == Camel(Prefix(verb), [piece] + pieces)
  {
    var rest := piece + Slashed(pieces);
    SlashedPlain(pieces);
    assert piece in [piece] + pieces && forall p :: p in pieces ==> p in [piece] + pieces;
    assert "/api/" + piece + Slashed(pieces) == "/api/" + rest;
    PlainPath("/api/" + rest);
    assert ("/api/" + rest)[..5] == "/api/" && ("/api/" + rest)[5..] == rest;
    SplitFrom(piece, pieces);
  }

  lemma {:induction false} SlashedPlain(pieces: seq<string>)
    requires forall p :: p in pieces ==> '{' !in p && '}' !in p
    ensures '{' !in Slashed(pieces) && '}' !in Slashed(pieces)
  {
    if pieces != [] {
      assert pieces[|pieces| - 1] in pieces;
      SlashedPlain(pieces[..|pieces| - 1]);
    }
  }

  lemma SplitChar(text: string, c: char)
    requires !IsSeparator(c)
    ensures Split(text + [c]) == Split(text)[..|Split(text)| - 1] + [Split(text)[|Split(text)| - 1] + [c]]
  {
    assert (text + [c])[..|text|] == text;
  }

  lemma {:induction false} SplitWhole(piece: string)
    requires forall c :: c in piece ==> !IsSeparator(c)
    ensures Split(piece) == [piece]
  {
    if piece != "" {
      var init, c := piece[..|piece| - 1], piece[|piece| - 1];
      assert piece == init + [c] && c in piece;
      SplitWhole(init);
      SplitChar(init, c);
    }
  }

  lemma EndsPlain(piece: string, init: seq<string>)
    requires IsPiece(piece) && forall p :: p in init ==> IsPiece(p)
    ensures var text := piece + Slashed(init);
            text != "" && !IsSeparator(text[|text| - 1])
  {
    SlashedEnds(init);
    assert piece[|piece| - 1] in piece;
  }

  lemma SlashedMore(piece: string, init: seq<string>, last: string)
    ensures piece + Slashed(init + [last]) == piece + Slashed(init) + "/" + last
  {
    assert (init + [last])[..|init|] == init;
    var s := Slashed(init);
    assert piece + (s + "/" + last) == piece + s + "/" + last;
  }

  lemma {:induction false} SplitFrom(piece: string, pieces: seq<string>)
    requires IsPiece(piece) && forall p :: p in pieces ==> IsPiece(p)
    ensures Split(piece + Slashed(pieces)) == [piece] + pieces
  {
    if pieces == [] {
      SplitWhole(piece);
      assert piece + "" == piece;
    } else {
      var init, last := pieces[..|pieces| - 1], pieces[|pieces| - 1];
      assert last in pieces && pieces == init + [last];
      SplitFrom(piece, init);
      EndsPlain(piece, init);
      SplitOneMore(piece + Slashed(init), last, [piece] + init);
      SlashedMore(piece, init, last);
      assert [piece] + pieces == [piece] + init + [last];
    }
  }

  predicate NoUnderscore(text: string) { '_' !in text }

  lemma {:induction false} PiecesHaveNoUnderscore(text: string)
    ensures forall p :: p in Split(text) ==> NoUnderscore(p)
  {
    if text != "" {
      var before := Split(text[..|text| - 1]);
      PiecesHaveNoUnderscore(text[..|text| - 1]);
      assert before[|before| - 1] in before;
    }
  }

  lemma {:induction false} CamelHasNoUnderscore(first: string, pieces: seq<string>)
    requires NoUnderscore(first) && forall p :: p in pieces ==> NoUnderscore(p)
    ensures NoUnderscore(Camel(first, pieces))
  {
    if pieces != [] {
      CamelHasNoUnderscore(first, pieces[..|pieces| - 1]);
      assert pieces[|pieces| - 1] in pieces;
    }
  }

  lemma {:induction false} BaseHasNoUnderscore(op: Operation)
    ensures NoUnderscore(BaseName(op))
  {
    PiecesHaveNoUnderscore(WithoutApi(Unbraced(op.path)));
    CamelHasNoUnderscore(Prefix(op.verb), Split(WithoutApi(Unbraced(op.path))));
  }

  // ---------- Telling names apart ----------

  /** The n-th repetition of a base name gets n as a suffix. */
  function Named(base: string, repetition: nat): string {
    if repetition == 0 then base else base + "_" + Decimal(repetition)
  }

  function Bases(ops: seq<Operation>): (bases: seq<string>)
    ensures |bases| == |ops|
  {
    if ops == [] then [] else Bases(ops[..|ops| - 1]) + [BaseName(ops[|ops| - 1])]
  }

  function Repetitions(bases: seq<string>, base: string): nat {
    if bases == [] then 0
    else Repetitions(bases[..|bases| - 1], base) + if bases[|bases| - 1] == base then 1 else 0
  }

  /** Each base name numbered by its earlier occurrences. */
  function Names(bases: seq<string>): (names: seq<string>)
    ensures |names| == |bases|
  {
    if bases == [] then []
    else
      var before, base := bases[..|bases| - 1], bases[|bases| - 1];
      Names(before) + [Named(base, Repetitions(before, base))]
  }

  /** The counters: how often each base name has repeated. */
  ghost predicate Counts(seen: map<string, nat>, bases: seq<string>) {
    && (forall b :: b in seen <==> Repetitions(bases, b) > 0)
    && (forall b :: b in seen ==> seen[b] + 1 == Repetitions(bases, b))
  }

  lemma CountsSnoc(seen: map<string, nat>, bases: seq<string>, base: string)
    requires Counts(seen, bases)
    ensures Counts(seen[base := Repetitions(bases, base)], bases + [base])
  {
    assert (bases + [base])[..|bases|] == bases;
  }

  lemma NamesSnoc(bases: seq<string>, base: string)
    ensures Names(bases + [base]) == Names(bases) + [Named(base, Repetitions(bases, base))]
  {
    assert (bases + [base])[..|bases|] == bases;
  }

  /** De-duplicates one name. */
  method Claim(seen: map<string, nat>, base: string, ghost bases: seq<string>)
    returns (after: map<string, nat>, name: string)
    requires Counts(seen, bases)
    ensures Counts(after, bases + [base]) && name == Named(base, Repetitions(bases, base))
  {
    CountsSnoc(seen, bases, base);
    if base in seen {
      after := seen[base := seen[base] + 1];
      name := base + "_" + Decimal(after[base]);
    } else {
      after := seen[base := 0];
      name := base;
    }
  }

  method GenerateNames(ops: seq<Operation>) returns (names: seq<string>)
    ensures names == Names(Bases(ops))
  {
    names := [];
    var seen: map<string, nat> := map[];
    ghost var bases: seq<string> := [];
    var k := 0;
    while k < |ops|
      invariant 0 <= k <= |ops| && bases == Bases(ops[..k])
      invariant names == Names(bases) && Counts(seen, bases)
    {
      assert ops[..k + 1][..k] == ops[..k];
      var name := PathToMethodName(ops[k]);
      NamesSnoc(bases, name);
      ghost var before := bases;
      bases := bases + [name];
      seen, name := Claim(seen, name, before);
      names := names + [name];
      k := k + 1;
    }
    assert ops[..k] == ops;
  }

  /** Reading a name back: what comes before the first underscore, and the number after it. */
  function Stem(name: string): string {
    if name == "" || name[0] == '_' then "" else [name[0]] + Stem(name[1..])
  }

  function Number(name: string): int {
    if |Stem(name)| < |name| then Value(name[|Stem(name)| + 1..]) else 0
  }

  lemma {:induction false} StemOf(base: string, rest: string)
    requires NoUnderscore(base) && (rest == "" || rest[0] == '_')
    ensures Stem(base + rest) == base
  {
    if base == "" {
      assert base + rest == rest;
    } else {
      StemOf(base[1..], rest);
      assert (base + rest)[1..] == base[1..] + rest;
    }
  }

  /** A name determines its base and its number. */
  lemma NamedReadsBack(base: string, n: nat)
    requires NoUnderscore(base)
    ensures Stem(Named(base, n)) == base && Number(Named(base, n)) == n
  {
    if n == 0 {
      StemOf(base, "");
      assert base + "" == base;
    } else {
      StemOf(base, "_" + Decimal(n));
      assert base + "_" + Decimal(n) == base + ("_" + Decimal(n));
      assert Named(base, n)[|base| + 1..] == Decimal(n);
      ValueOfDecimal(n);
    }
  }

  lemma {:induction false} RepetitionsGrow(bases: seq<string>, k: nat, l: nat)
    requires k < l <= |bases|
    ensures Repetitions(bases[..k], bases[k]) < Repetitions(bases[..l], bases[k])
    decreases l
  {
    assert bases[..l][..l - 1] == bases[..l - 1];
    if k < l - 1 {
      RepetitionsGrow(bases, k, l - 1);
    }
  }

  lemma {:induction false} NameAt(bases: seq<string>, k: nat)
    requires k < |bases|
    ensures Names(bases)[k] == Named(bases[k], Repetitions(bases[..k], bases[k]))
  {
    if k < |bases| - 1 {
      NameAt(bases[..|bases| - 1], k);
      assert bases[..|bases| - 1][..k] == bases[..k];
    }
  }

  lemma {:induction false} BaseAt(ops: seq<Operation>, k: nat)
    requires k < |ops|
    ensures Bases(ops)[k] == BaseName(ops[k])
  {
    if k < |ops| - 1 {
      BaseAt(ops[..|ops| - 1], k);
    }
  }

  ghost function PlacesOf(bases: seq<string>, base: string): set<nat> {
    set i: nat | i < |bases| && bases[i] == base
  }

  lemma PlacesNext(bases: seq<string>, base: string, n: nat)
    requires n + 1 == |bases|
    ensures |PlacesOf(bases, base)| == |PlacesOf(bases[..n], base)| + if bases[n] == base then 1 else 0
  {
    forall i: nat | i < n ensures i in PlacesOf(bases, base) <==> i in PlacesOf(bases[..n], base) {
      assert bases[..n][i] == bases[i];
    }
    assert PlacesOf(bases, base) == PlacesOf(bases[..n], base) + if bases[n] == base then {n} else {};
  }

  lemma {:induction false} RepetitionsAre(bases: seq<string>, base: string)
    ensures Repetitions(bases, base) == |PlacesOf(bases, base)|
  {
    if bases != [] {
      RepetitionsAre(bases[..|bases| - 1], base);
      PlacesNext(bases, base, |bases| - 1);
    }
  }

  /**
   The name of an operation: its base, followed by an underscore and the number of earlier operations with
   that base, if there are any.
   */
  lemma {:induction false} NameOf(ops: seq<Operation>, k: nat)
    requires k < |ops|
    ensures var n := |set i: nat | i < k && BaseName(ops[i]) == BaseName(ops[k])|;
            |Names(Bases(ops))| == |ops| &&
            Names(Bases(ops))[k] == if n == 0 then BaseName(ops[k]) else BaseName(ops[k]) + "_" + Decimal(n)
  {
    var bases := Bases(ops);
    BaseAt(ops, k);
    NameAt(bases, k);
    RepetitionsAre(bases[..k], bases[k]);
    EarlierWithBase(ops, k, bases[k]);
  }

  lemma {:induction false} EarlierWithBase(ops: seq<Operation>, k: nat, base: string)
    requires k <= |ops|
    ensures PlacesOf(Bases(ops)[..k], base) == set i: nat | i < k && BaseName(ops[i]) == base
  {
    forall i: nat | i < k ensures Bases(ops)[..k][i] == BaseName(ops[i]) {
      BaseAt(ops, i);
    }
  }

  /** The generated functions have pairwise different names, for every list of operations. */
  lemma {:induction false} NamesAreDistinct(ops: seq<Operation>, k: nat, l: nat)
    requires k < l < |ops|
    ensures |Names(Bases(ops))| == |ops| && Names(Bases(ops))[k] != Names(Bases(ops))[l]
  {
    var bases := Bases(ops);
    BaseAt(ops, k);
    BaseAt(ops, l);
    BaseHasNoUnderscore(ops[k]);
    BaseHasNoUnderscore(ops[l]);
    NameAt(bases, k);
    NameAt(bases, l);
    NamedReadsBack(bases[k], Repetitions(bases[..k], bases[k]));
    NamedReadsBack(bases[l], Repetitions(bases[..l], bases[l]));
    RepetitionsGrow(bases, k, l);
  }

  // ---------- Valid identifiers ----------

  predicate IsWordChar(c: char) {
    'a' <= c <= 'z' || 'A' <= c <= 'Z' || '0' <= c <= '9' || c == '_' || c == '$'
  }

  /** What a path may hold for its name to be an identifier. */
  predicate Harmless(c: char) {
    IsWordChar(c) || c == '/' || c == '-' || c == '{' || c == '}'
  }

  predicate IsWord(text: string) {
    text == "" || (IsWord(text[..|text| - 1]) && IsWordChar(text[|text| - 1]))
  }

  predicate AllWords(pieces: seq<string>) {
    pieces == [] || (AllWords(pieces[..|pieces| - 1]) && IsWord(pieces[|pieces| - 1]))
  }

  predicate AllHarmless(text: string) {
    text == "" || (AllHarmless(text[..|text| - 1]) && Harmless(text[|text| - 1]))
  }

  lemma {:induction false} WordIs(text: string)
    ensures IsWord(text) <==> forall c :: c in text ==> IsWordChar(c)
  {
    if text != "" {
      var n := |text| - 1;
      assert text == text[..n] + [text[n]];
      WordIs(text[..n]);
    }
  }

  lemma {:induction false} HarmlessIs(text: string)
    ensures AllHarmless(text) <==> forall c :: c in text ==> Harmless(c)
  {
    if text != "" {
      var n := |text| - 1;
      assert text == text[..n] + [text[n]];
      HarmlessIs(text[..n]);
    }
  }

  lemma {:induction false} WordConcat(a: string, b: string)
    ensures IsWord(a + b) <==> IsWord(a) && IsWord(b)
  {
    if b == "" {
      assert a + b == a;
    } else {
      WordConcat(a, b[..|b| - 1]);
      assert (a + b)[..|a + b| - 1] == a + b[..|b| - 1];
    }
  }

  lemma OneChar(c: char)
    ensures IsWord([c]) <==> IsWordChar(c)
  {
    assert [c][..0] == "";
  }

  lemma CapitalizedWord(piece: string)
    ensures IsWord(Capitalized(piece)) <==> IsWord(piece)
  {
    if piece != "" {
      WordConcat([UpperChar(piece[0])], piece[1..]);
      WordConcat([piece[0]], piece[1..]);
      OneChar(piece[0]);
      OneChar(UpperChar(piece[0]));
      assert piece == [piece[0]] + piece[1..];
    }
  }

  lemma {:induction false} CamelWord(first: string, pieces: seq<string>)
    ensures IsWord(Camel(first, pieces)) <==> IsWord(first) && AllWords(pieces)
  {
    if pieces != [] {
      CamelWord(first, pieces[..|pieces| - 1]);
      CapitalizedWord(pieces[|pieces| - 1]);
      WordConcat(Camel(first, pieces[..|pieces| - 1]), Capitalized(pieces[|pieces| - 1]));
    }
  }

  lemma {:induction false} CamelStarts(first: string, pieces: seq<string>)
    ensures first <= Camel(first, pieces)
  {
    if pieces != [] {
      CamelStarts(first, pieces[..|pieces| - 1]);
    }
  }

  lemma BaseStartsWithLetter(op: Operation)
    ensures BaseName(op) != "" && 'a' <= BaseName(op)[0] <= 'z'
    ensures match op.verb
            case Get => "get" <= BaseName(op)
            case Post => "post" <= BaseName(op)
            case Put => "put" <= BaseName(op)
            case Patch => "patch" <= BaseName(op)
            case Delete => "delete" <= BaseName(op)
  {
    var first := Prefix(op.verb);
    assert first != "" && 'a' <= first[0] <= 'z';
    CamelStarts(first, Split(WithoutApi(Unbraced(op.path))));
  }

  /** Splitting a text without braces drops separators only. */
  lemma {:induction false} SplitWords(text: string)
    requires '{' !in text && '}' !in text
    ensures AllWords(Split(text)) <==> AllHarmless(text)
  {
    if text == "" {
      assert [""][..0] == [];
    } else {
      var n := |text| - 1;
      var before, c := Split(text[..n]), text[n];
      SplitWords(text[..n]);
      if !IsSeparator(c) {
        var last := before[|before| - 1];
        WordConcat(last, [c]);
        OneChar(c);
        var pieces := before[..|before| - 1] + [last + [c]];
        assert pieces[..|pieces| - 1] == before[..|before| - 1];
      } else {
        assert (before + [""])[..|before|] == before;
      }
    }
  }

  lemma {:induction false} HarmlessConcat(a: string, b: string)
    ensures AllHarmless(a + b) <==> AllHarmless(a) && AllHarmless(b)
  {
    if b == "" {
      assert a + b == a;
    } else {
      HarmlessConcat(a, b[..|b| - 1]);
      assert (a + b)[..|a + b| - 1] == a + b[..|b| - 1];
    }
  }

  lemma {:induction false} UnbracedHarmless(path: string)
    ensures AllHarmless(Unbraced(path)) <==> AllHarmless(path)
    ensures '{' !in Unbraced(path) && '}' !in Unbraced(path)
  {
    if path != "" {
      UnbracedHarmless(path[..|path| - 1]);
      var before, c := Unbraced(path[..|path| - 1]), path[|path| - 1];
      assert (before + [c])[..|before|] == before;
    }
  }

  lemma WithoutApiHarmless(path: string)
    ensures AllHarmless(WithoutApi(path)) <==> AllHarmless(path)
  {
    if StartsWith(path, "/api/") {
      HarmlessConcat(path[..5], path[5..]);
      assert path == path[..5] + path[5..];
      ApiHarmless();
    }
  }

  lemma ApiHarmless()
    ensures AllHarmless("/api/")
  {
    assert "/api/"[..4] == "/api" && "/api"[..3] == "/ap" && "/ap"[..2] == "/a" && "/a"[..1] == "/" && "/"[..0] == "";
  }

  lemma PrefixWord(m: Method)
    ensures IsWord(Prefix(m))
  {
    assert "get"[..2] == "ge" && "ge"[..1] == "g" && "g"[..0] == "";
    assert "post"[..3] == "pos" && "pos"[..2] == "po" && "po"[..1] == "p" && "p"[..0] == "";
    assert "put"[..2] == "pu" && "pu"[..1] == "p";
    assert "patch"[..4] == "patc" && "patc"[..3] == "pat" && "pat"[..2] == "pa" && "pa"[..1] == "p";
    assert "delete"[..5] == "delet" && "delet"[..4] == "dele" && "dele"[..3] == "del";
    assert "del"[..2] == "de" && "de"[..1] == "d" && "d"[..0] == "";
  }

  /**
   A base name consists of letters, digits, "_" and "$" exactly when its path has only those, slashes, hyphens
   and braces.
   */
  lemma IdentifierExactlyForHarmlessPaths(op: Operation)
    ensures (forall c :: c in BaseName(op) ==>
               'a' <= c <= 'z' || 'A' <= c <= 'Z' || '0' <= c <= '9' || c in {'_', '$'}) <==>
            (forall c :: c in op.path ==>
               'a' <= c <= 'z' || 'A' <= c <= 'Z' || '0' <= c <= '9' || c in {'_', '$', '/', '-', '{', '}'})
    ensures IsWord(BaseName(op)) <==> AllHarmless(op.path)
  {
    WordIs(BaseName(op));
    HarmlessIs(op.path);
    var clean := WithoutApi(Unbraced(op.path));
    UnbracedHarmless(op.path);
    WithoutApiHarmless(Unbraced(op.path));
    SplitWords(clean);
    PrefixWord(op.verb);
    CamelWord(Prefix(op.verb), Split(clean));
  }

  // ---------- Reserved words ----------

  /** What no function of an ECMAScript module may be called (section 12.7.2 and 13.1.1 of ECMA-262). */
  predicate Reserved(name: string) {
    name in {
      "arguments", "await", "break", "case", "catch", "class", "const", "continue", "debugger", "default",
      "delete", "do", "else", "enum", "eval", "export", "extends", "false", "finally", "for", "function", "if",
      "implements", "import", "in", "instanceof", "interface", "let", "new", "null", "package", "private",
      "protected", "public", "return", "static", "super", "switch", "this", "throw", "true", "try", "typeof",
      "var", "void", "while", "with", "yield"
    }
  }

  lemma ReservedVerb(name: string, verb: Method)
    requires Prefix(verb) <= name && Reserved(name)
    ensures name == "delete" && verb == Delete
  {
    var p := Prefix(verb);
    assert name[0] == p[0] && name[1] == p[1] && name[2] == p[2];
  }

  predicate AllEmpty(pieces: seq<string>) {
    pieces == [] || (AllEmpty(pieces[..|pieces| - 1]) && pieces[|pieces| - 1] == "")
  }

  predicate AllSeparators(text: string) {
    text == "" || (AllSeparators(text[..|text| - 1]) && text[|text| - 1] in {'/', '_', '-'})
  }

  lemma {:induction false} CamelAddsNothingIff(first: string, pieces: seq<string>)
    ensures |Camel(first, pieces)| >= |first|
    ensures |Camel(first, pieces)| == |first| <==> AllEmpty(pieces)
  {
    if pieces != [] {
      CamelAddsNothingIff(first, pieces[..|pieces| - 1]);
    }
  }

  lemma {:induction false} NoPiecesIff(text: string)
    ensures AllEmpty(Split(text)) <==> AllSeparators(text)
  {
    if text == "" {
      assert [""][..0] == [];
    } else {
      var n := |text| - 1;
      var before := Split(text[..n]);
      NoPiecesIff(text[..n]);
      assert (before + [""])[..|before|] == before;
    }
  }

  /** Only a DELETE of the root path, or of nothing but separators and braces, is called "delete". */
  lemma NamedDeleteIff(op: Operation)
    ensures BaseName(op) == "delete" <==> op.verb == Delete && AllSeparators(WithoutApi(Unbraced(op.path)))
  {
    var pieces := Split(WithoutApi(Unbraced(op.path)));
    NoPiecesIff(WithoutApi(Unbraced(op.path)));
    IsDeleteIff(Prefix(op.verb), op.verb, Camel(Prefix(op.verb), pieces), pieces);
  }

  lemma IsDeleteIff(first: string, verb: Method, name: string, pieces: seq<string>)
    requires first == Prefix(verb) && name == Camel(first, pieces)
    ensures name == "delete" <==> verb == Delete && AllEmpty(pieces)
  {
    CamelStarts(first, pieces);
    CamelAddsNothingIff(first, pieces);
    assert first[0] == name[0];
    assert verb == Delete ==> first == "delete" && |first| == 6;
    assert |name| == |first| ==> name == first;
  }

  /** Exactly when a base name can name a function: its path is harmless, and it is not the lone "delete". */
  lemma ValidNameIff(op: Operation)
    ensures IsWord(BaseName(op)) && !Reserved(BaseName(op)) <==>
            AllHarmless(op.path) && !(op.verb == Delete && AllSeparators(WithoutApi(Unbraced(op.path))))
  {
    IdentifierExactlyForHarmlessPaths(op);
    NamedDeleteIff(op);
    if Reserved(BaseName(op)) {
      CamelStarts(Prefix(op.verb), Split(WithoutApi(Unbraced(op.path))));
      ReservedVerb(BaseName(op), op.verb);
    }
  }

  /** The root path gives a name that does not compile. */
  lemma RootDeleteIsReserved()
    ensures BaseName(Operation("/", Delete)) == "delete" && Reserved("delete")
  {
    assert "/"[..0] == "";
    assert Unbraced("/") == "/";
    NamedDeleteIff(Operation("/", Delete));
  }
}
