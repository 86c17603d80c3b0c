/** The application-id parsing of `FlowStreamHandler`: the value of an environment variable,
    split at commas, each piece trimmed, blank pieces dropped; nothing left is an error. */
module StreamHandler {
  import opened Wrappers

  /** The `IllegalStateException` thrown when no application id remains. */
  datatype HandlerError = NoApplicationIds

  /** A character of the regular-expression class `\s`: space, tab, line feed, vertical tab,
      form feed or carriage return. */
  predicate IsRegexSpace(c: char) {
    c == ' ' || c == '\t' || c == '\n' || c == '\U{B}' || c == '\U{C}' || c == '\r'
  }

  /** A character `String.trim` removes: any code point up to and including the space. */
  predicate IsBlank(c: char) {
    c <= ' '
  }

  /** No blank at either end. */
  predicate IsTrimmed(s: string) {
    s == [] || (!IsBlank(s[0]) && !IsBlank(s[|s| - 1]))
  }

  /** The longest suffix of `s` that does not start with a `\s` character. */
  function SkipSpaces(s: string): (r: string)
    ensures |r| <= |s|
    ensures r == [] || !IsRegexSpace(r[0])
  {
    if |s| > 0 && IsRegexSpace(s[0]) then SkipSpaces(s[1..]) else s
  }

  /** The position of the first comma of `s`, or `|s|` when there is none. */
  function IndexOfComma(s: string): (i: nat)
    ensures i <= |s|
    ensures i < |s| ==> s[i] == ','
    ensures forall j | 0 <= j < i :: s[j] != ','
  {
    if |s| == 0 || s[0] == ',' then 0 else 1 + IndexOfComma(s[1..])
  }

  /** The pieces that `split(",\\s*")` cuts `s` into, before trailing empty pieces are discarded:
      each separator is a comma and all the `\s` characters right after it. */
  function SeparatorPieces(s: string): (r: seq<string>)
    ensures |r| >= 1
    decreases |s|
  {
    var i := IndexOfComma(s);
    if i == |s| then [s] else [s[..i]] + SeparatorPieces(SkipSpaces(s[i + 1..]))
  }

  /** `pieces` without its trailing run of empty strings. */
  function DropTrailingEmpty(pieces: seq<string>): (r: seq<string>)
    ensures r == [] || r[|r| - 1] != ""
  {
    if |pieces| > 0 && pieces[|pieces| - 1] == "" then DropTrailingEmpty(pieces[..|pieces| - 1]) else pieces
  }

  /** `s.split(",\\s*")`: with no separator the whole string is the only piece; otherwise the
      pieces with trailing empty ones discarded. */
  function Split(s: string): seq<string> {
    var pieces := SeparatorPieces(s);
    if |pieces| == 1 then pieces else DropTrailingEmpty(pieces)
  }

  /** `s` without its leading blanks. */
  function TrimStart(s: string): (r: string)
    ensures |r| <= |s|
    ensures r == [] || !IsBlank(r[0])
  {
    if |s| > 0 && IsBlank(s[0]) then TrimStart(s[1..]) else s
  }

  /** `s` without its trailing blanks. */
  function TrimEnd(s: string): (r: string)
    ensures |r| <= |s| && r == s[..|r|]
    ensures r == [] || !IsBlank(r[|r| - 1])
  {
    if |s| > 0 && IsBlank(s[|s| - 1]) then TrimEnd(s[..|s| - 1]) else s
  }

  /** `TrimStart` cuts off a prefix of blanks. */
  lemma {:induction false} TrimStartCutsBlanks(s: string)
    ensures TrimStart(s) == s[|s| - |TrimStart(s)|..]
    ensures forall i | 0 <= i < |s| - |TrimStart(s)| :: IsBlank(s[i])
    decreases |s|
  {
    if |s| > 0 && IsBlank(s[0]) {
      TrimStartCutsBlanks(s[1..]);
    }
  }

  /** `TrimEnd` cuts off a suffix of blanks. */
  lemma {:induction false} TrimEndCutsBlanks(s: string)
    ensures forall i | |TrimEnd(s)| <= i < |s| :: IsBlank(s[i])
    decreases |s|
  {
    if |s| > 0 && IsBlank(s[|s| - 1]) {
      TrimEndCutsBlanks(s[..|s| - 1]);
    }
  }

  /** `String.trim`: `s` without its leading and trailing blanks. */
  function Trim(s: string): (r: string)
    ensures IsTrimmed(r)
  {
    TrimEnd(TrimStart(s))
  }

  /** What `String.trim` promises: the result is an infix of `s` with no blank at either end,
      and everything cut off on either side is blank. */
  lemma {:induction false} TrimCutsOnlyBlanks(s: string)
    ensures var r := Trim(s); var k := |s| - |TrimStart(s)|;
            && 0 <= k <= |s| - |r| && r == s[k..k + |r|]
            && (forall i | 0 <= i < k :: IsBlank(s[i]))
            && (forall i | k + |r| <= i < |s| :: IsBlank(s[i]))
  {
    var front := TrimStart(s);
    var r := TrimEnd(front);
    var k := |s| - |front|;
    TrimStartCutsBlanks(s);
    TrimEndCutsBlanks(front);
    assert r == s[k..k + |r|];
    forall i | k + |r| <= i < |s|
      ensures IsBlank(s[i])
    {
      assert s[i] == front[i - k];
    }
  }

  /** The id one piece contributes: its trimmed form, unless that is empty. */
  function IdOf(p: string): (r: set<string>)
    ensures forall x | x in r :: x != "" && IsTrimmed(x)
  {
    if Trim(p) == "" then {} else {Trim(p)}
  }

  /** The ids the pieces contribute: each piece trimmed, blank ones left out, collected into a set. */
  function IdsOf(pieces: seq<string>): (r: set<string>)
    ensures forall x | x in r :: x != "" && IsTrimmed(x)
    decreases |pieces|
  {
    if pieces == [] then {} else IdOf(pieces[0]) + IdsOf(pieces[1..])
  }

  /** `FlowStreamHandler.applicationIds()`, with the environment variable's value (`None` when it
      is unset) as the parameter. */
  function ApplicationIds(env: Option<string>): (r: Result<set<string>, HandlerError>)
    ensures r.Success? ==> r.value != {}
    ensures r.Success? ==> forall id | id in r.value :: id != "" && IsTrimmed(id)
  {
    var appIds := if env.Some? then env.value else "";
    var ids := IdsOf(Split(appIds));
    if ids == {} then Failure(NoApplicationIds) else Success(ids)
  }

  // ---------------------------------------------------------------------------------------
  // A reference reading: cut at every comma, with nothing consumed after it.

  /** The text between consecutive commas of `s`. */
  function CommaPieces(s: string): (r: seq<string>)
    ensures |r| >= 1
    decreases |s|
  {
    var i := IndexOfComma(s);
    if i == |s| then [s] else [s[..i]] + CommaPieces(s[i + 1..])
  }

  /** The ids the plain comma reading yields. */
  function ReferenceIds(appIds: string): set<string> {
    IdsOf(CommaPieces(appIds))
  }

  /** Stripping a leading character that is not a comma only shortens the first piece. */
  lemma {:induction false} CommaPiecesTail(t: string)
    requires |t| > 0 && t[0] != ','
    ensures |CommaPieces(t)| == |CommaPieces(t[1..])|
    ensures CommaPieces(t)[0] == [t[0]] + CommaPieces(t[1..])[0]
    ensures CommaPieces(t)[1..] == CommaPieces(t[1..])[1..]
  {
    var i := IndexOfComma(t);
    assert IndexOfComma(t[1..]) == i - 1;
    if i < |t| {
      assert t[i + 1..] == t[1..][i..];
      assert t[..i] == [t[0]] + t[1..][..i - 1];
    } else {
      assert t == [t[0]] + t[1..];
    }
  }

  /** Skipping leading `\s` characters only changes the first comma piece, and in the same way. */
  lemma {:induction false} CommaPiecesSkipSpaces(t: string)
    ensures CommaPieces(SkipSpaces(t)) == [SkipSpaces(CommaPieces(t)[0])] + CommaPieces(t)[1..]
    decreases |t|
  {
    if |t| > 0 && IsRegexSpace(t[0]) {
      CommaPiecesTail(t);
      CommaPiecesSkipSpaces(t[1..]);
      var p := CommaPieces(t)[0];
      assert p[1..] == CommaPieces(t[1..])[0];
    } else {
      var i := IndexOfComma(t);
      var p := CommaPieces(t)[0];
      assert p == t[..i];
      assert SkipSpaces(p) == p;
      assert CommaPieces(t) == [p] + CommaPieces(t)[1..];
    }
  }

  /** Each piece with its leading `\s` characters skipped. */
  function SkipAll(pieces: seq<string>): (r: seq<string>)
    ensures |r| == |pieces|
  {
    if pieces == [] then [] else [SkipSpaces(pieces[0])] + SkipAll(pieces[1..])
  }

  /** Skipping spaces in every piece of `[p] + ps`. */
  lemma {:induction false} SkipAllCons(p: string, ps: seq<string>)
    ensures SkipAll([p] + ps) == [SkipSpaces(p)] + SkipAll(ps)
  {
    assert ([p] + ps)[1..] == ps;
  }

  /** The separator pieces are the comma pieces, with the spaces after each comma removed. */
  lemma {:induction false} SeparatorPiecesAreCommaPieces(s: string)
    ensures SeparatorPieces(s) == [CommaPieces(s)[0]] + SkipAll(CommaPieces(s)[1..])
    decreases |s|
  {
    var i := IndexOfComma(s);
    if i < |s| {
      var t := s[i + 1..];
      var u := SkipSpaces(t);
      var ct := CommaPieces(t);
      assert SeparatorPieces(s) == [s[..i]] + SeparatorPieces(u);
      assert CommaPieces(s) == [s[..i]] + ct;
      assert SeparatorPieces(u) == SkipAll(ct) by {
        SeparatorPiecesAreCommaPieces(u);
        CommaPiecesSkipSpaces(t);
        SkipAllCons(ct[0], ct[1..]);
        assert ct == [ct[0]] + ct[1..];
      }
    } else {
      assert SkipAll([]) == [];
    }
  }

  /** Trimming ignores the spaces the separator consumed, since every `\s` character is blank. */
  lemma {:induction false} TrimSkipSpaces(s: string)
    ensures Trim(SkipSpaces(s)) == Trim(s)
    decreases |s|
  {
    if |s| > 0 && IsRegexSpace(s[0]) {
      TrimSkipSpaces(s[1..]);
      assert TrimStart(s) == TrimStart(s[1..]);
    }
  }

  lemma {:induction false} IdsOfCons(p: string, ps: seq<string>)
    ensures IdsOf([p] + ps) == IdOf(p) + IdsOf(ps)
  {
    assert ([p] + ps)[1..] == ps;
  }

  /** Skipping leading spaces changes no piece's trimmed form, so no id. */
  lemma {:induction false} SkipAllIds(pieces: seq<string>)
    ensures IdsOf(SkipAll(pieces)) == IdsOf(pieces)
    decreases |pieces|
  {
    if pieces != [] {
      var p, rest := pieces[0], pieces[1..];
      calc {
        IdsOf(SkipAll(pieces));
        IdsOf([SkipSpaces(p)] + SkipAll(rest));
        { IdsOfCons(SkipSpaces(p), SkipAll(rest)); }
        IdOf(SkipSpaces(p)) + IdsOf(SkipAll(rest));
        { TrimSkipSpaces(p); SkipAllIds(rest); }
        IdOf(p) + IdsOf(rest);
      }
    }
  }

  /** Only the pieces' trimmed forms matter, so ids from the separator pieces and from the comma
      pieces agree. */
  lemma {:induction false} SeparatorIdsAreReferenceIds(s: string)
    ensures IdsOf(SeparatorPieces(s)) == ReferenceIds(s)
  {
    var cp := CommaPieces(s);
    SeparatorPiecesAreCommaPieces(s);
    SkipAllIds(cp[1..]);
    IdsOfCons(cp[0], SkipAll(cp[1..]));
  }

  /** Discarding trailing empty pieces discards no id. */
  lemma {:induction false} DropTrailingEmptyIds(pieces: seq<string>)
    ensures IdsOf(DropTrailingEmpty(pieces)) == IdsOf(pieces)
    decreases |pieces|
  {
    if |pieces| > 0 && pieces[|pieces| - 1] == "" {
      var front := pieces[..|pieces| - 1];
      DropTrailingEmptyIds(front);
      IdsOfAppend(front, [""]);
      assert pieces == front + [""];
      assert IdsOf([""]) == {};
    }
  }

  lemma {:induction false} IdsOfAppend(ps: seq<string>, qs: seq<string>)
    ensures IdsOf(ps + qs) == IdsOf(ps) + IdsOf(qs)
    decreases |ps|
  {
    if ps != [] {
      IdsOfAppend(ps[1..], qs);
      assert (ps + qs)[1..] == ps[1..] + qs;
    } else {
      assert ps + qs == qs;
    }
  }

  /** The application ids are exactly the non-blank comma pieces of the value, trimmed: the
      handler's regular-expression split agrees with a plain split at every comma. */
  lemma {:induction false} ApplicationIdsByCommaPieces(env: Option<string>)
    ensures var appIds := env.GetOr("");
            ApplicationIds(env) == if ReferenceIds(appIds) == {} then Failure(NoApplicationIds)
                                   else Success(ReferenceIds(appIds))
  {
    var appIds := env.GetOr("");
    SeparatorIdsAreReferenceIds(appIds);
    DropTrailingEmptyIds(SeparatorPieces(appIds));
  }

  /** An id is collected exactly when some piece trims to it and it is not empty. */
  lemma {:induction false} IdsOfMembers(pieces: seq<string>, x: string)
    ensures x in IdsOf(pieces) <==> x != "" && exists j | 0 <= j < |pieces| :: Trim(pieces[j]) == x
    decreases |pieces|
  {
    if pieces != [] {
      IdsOfMembers(pieces[1..], x);
      if exists j | 0 <= j < |pieces[1..]| :: Trim(pieces[1..][j]) == x {
        var j :| 0 <= j < |pieces[1..]| && Trim(pieces[1..][j]) == x;
        assert Trim(pieces[j + 1]) == x;
      }
      if exists j | 0 <= j < |pieces| :: Trim(pieces[j]) == x {
        var j :| 0 <= j < |pieces| && Trim(pieces[j]) == x;
        if j > 0 {
          assert Trim(pieces[1..][j - 1]) == x;
        }
      }
    }
  }

  /** A comma piece that is not blank contributes its trimmed form, and every id comes from a
      comma piece. */
  lemma {:induction false} PieceAppearsIffNotBlank(env: Option<string>)
    ensures var pieces := CommaPieces(env.GetOr(""));
            forall j | 0 <= j < |pieces| && Trim(pieces[j]) != "" ::
              ApplicationIds(env).Success? && Trim(pieces[j]) in ApplicationIds(env).value
    ensures var pieces := CommaPieces(env.GetOr(""));
            ApplicationIds(env).Success? ==>
              forall x | x in ApplicationIds(env).value ::
                exists j | 0 <= j < |pieces| :: Trim(pieces[j]) == x
  {
    var pieces := CommaPieces(env.GetOr(""));
    ApplicationIdsByCommaPieces(env);
    assert ApplicationIds(env).Success? ==> ApplicationIds(env).value == IdsOf(pieces);
    forall j | 0 <= j < |pieces| && Trim(pieces[j]) != ""
      ensures Trim(pieces[j]) in IdsOf(pieces)
    {
      IdsOfMembers(pieces, Trim(pieces[j]));
    }
    forall x | x in IdsOf(pieces)
      ensures exists j | 0 <= j < |pieces| :: Trim(pieces[j]) == x
    {
      IdsOfMembers(pieces, x);
    }
  }

  /** Every character of `s` is blank. */
  predicate AllBlank(s: string) {
    forall i | 0 <= i < |s| :: IsBlank(s[i])
  }

  /** Every piece is blank. */
  predicate AllPiecesBlank(pieces: seq<string>) {
    forall j | 0 <= j < |pieces| :: AllBlank(pieces[j])
  }

  lemma {:induction false} AllPiecesBlankCons(p: string, ps: seq<string>)
    ensures AllPiecesBlank([p] + ps) <==> AllBlank(p) && AllPiecesBlank(ps)
  {
    var qs := [p] + ps;
    if AllPiecesBlank(qs) {
      assert AllBlank(qs[0]);
      forall k | 0 <= k < |ps|
        ensures AllBlank(ps[k])
      {
        assert ps[k] == qs[k + 1];
        assert AllBlank(qs[k + 1]);
      }
    }
    if AllBlank(p) && AllPiecesBlank(ps) {
      forall j | 0 <= j < |qs|
        ensures AllBlank(qs[j])
      {
        if j > 0 {
          assert qs[j] == ps[j - 1];
          assert AllBlank(ps[j - 1]);
        }
      }
    }
  }

  /** Every character of `s` is a comma or blank. */
  predicate OnlyCommasAndBlanks(s: string) {
    forall i | 0 <= i < |s| :: s[i] == ',' || IsBlank(s[i])
  }

  /** A piece trims to nothing exactly when all of it is blank. */
  lemma {:induction false} TrimEmpty(p: string)
    ensures Trim(p) == "" <==> AllBlank(p)
  {
    var front := TrimStart(p);
    var k := |p| - |front|;
    TrimStartCutsBlanks(p);
    if Trim(p) == "" {
      TrimEndCutsBlanks(front);
      assert front == [];
    } else {
      assert !IsBlank(p[k]) by {
        assert Trim(p)[0] == front[0];
        assert front[0] == p[k];
      }
    }
  }

  /** No id is collected exactly when every piece is blank. */
  lemma {:induction false} IdsOfEmpty(pieces: seq<string>)
    ensures IdsOf(pieces) == {} <==> AllPiecesBlank(pieces)
    decreases |pieces|
  {
    if pieces != [] {
      IdsOfEmpty(pieces[1..]);
      TrimEmpty(pieces[0]);
      AllPiecesBlankCons(pieces[0], pieces[1..]);
      assert pieces == [pieces[0]] + pieces[1..];
    }
  }

  /** The comma pieces of `s` are all blank exactly when `s` holds only commas and blanks. */
  lemma {:induction false} CommaPiecesAllBlank(s: string)
    ensures AllPiecesBlank(CommaPieces(s)) <==> OnlyCommasAndBlanks(s)
    decreases |s|
  {
    var i := IndexOfComma(s);
    var cp := CommaPieces(s);
    if i < |s| {
      var rest := s[i + 1..];
      CommaPiecesAllBlank(rest);
      assert cp == [s[..i]] + CommaPieces(rest);
      AllPiecesBlankCons(s[..i], CommaPieces(rest));
      assert OnlyCommasAndBlanks(s) <==> AllBlank(s[..i]) && OnlyCommasAndBlanks(rest) by {
        assert forall k | 0 <= k < i :: s[k] == s[..i][k] && s[k] != ',';
        assert forall k | i < k < |s| :: s[k] == rest[k - i - 1];
        assert forall k | 0 <= k < |rest| :: rest[k] == s[k + i + 1];
      }
    } else {
      assert cp == [s] + [];
      AllPiecesBlankCons(s, []);
      assert forall k | 0 <= k < |s| :: s[k] != ',';
    }
  }

  /** The handler refuses to start exactly when the value (an unset variable reading as empty)
      holds nothing but commas and blanks. */
  lemma {:induction false} FailsIffOnlyCommasAndBlanks(env: Option<string>)
    ensures ApplicationIds(env).Failure? <==> OnlyCommasAndBlanks(env.GetOr(""))
  {
    var appIds := env.GetOr("");
    var pieces := CommaPieces(appIds);
    ApplicationIdsByCommaPieces(env);
    IdsOfEmpty(pieces);
    CommaPiecesAllBlank(appIds);
    assert ApplicationIds(env).Failure? <==> IdsOf(pieces) == {};
  }

  /** An unset variable reads as the empty string, and both are refused, as is `",, , "`. */
  lemma {:induction false} MissingOrBlankRefused()
    ensures ApplicationIds(None) == Failure(NoApplicationIds)
    ensures ApplicationIds(Some("")) == Failure(NoApplicationIds)
    ensures ApplicationIds(Some(",, , ")) == Failure(NoApplicationIds)
  {
    FailsIffOnlyCommasAndBlanks(None);
    FailsIffOnlyCommasAndBlanks(Some(",, , "));
  }

  /** A value without commas yields the single id it holds, trimmed, when it is not blank. */
  lemma {:induction false} SingleId(appIds: string)
    requires ',' !in appIds
    requires Trim(appIds) != ""
    ensures ApplicationIds(Some(appIds)) == Success({Trim(appIds)})
  {
    assert IndexOfComma(appIds) == |appIds|;
    assert SeparatorPieces(appIds) == [appIds];
    assert Split(appIds) == [appIds];
    assert [appIds][1..] == [];
    assert IdsOf([appIds]) == IdOf(appIds) + IdsOf([]);
    assert IdOf(appIds) == {Trim(appIds)};
    assert IdsOf(Split(appIds)) == {Trim(appIds)};
  }

  /** Separator pieces of a value that starts with a comma-free text and a comma. */
  lemma {:induction false} SeparatorPiecesCons(a: string, b: string)
    requires ',' !in a
    ensures SeparatorPieces(a + [','] + b) == [a] + SeparatorPieces(SkipSpaces(b))
  {
    var s := a + [','] + b;
    assert s[|a|] == ',';
    assert IndexOfComma(s) == |a|;
    assert s[..|a|] == a;
    assert s[|a| + 1..] == b;
  }

  lemma {:induction false} SeparatorPiecesNoComma(s: string)
    requires ',' !in s
    ensures SeparatorPieces(s) == [s]
  {
    assert IndexOfComma(s) == |s|;
  }

  /** A trimmed text is its own trimmed form. */
  lemma {:induction false} TrimOfTrimmed(s: string)
    requires IsTrimmed(s)
    ensures Trim(s) == s
  {
    if s != [] {
      assert TrimStart(s) == s;
    }
  }

  /** A text that does not start with a blank loses nothing to `SkipSpaces`. */
  lemma {:induction false} SkipSpacesNone(s: string)
    requires s == [] || !IsBlank(s[0])
    ensures SkipSpaces(s) == s
  {
  }

  /** An id is a non-empty, trimmed text without commas. */
  predicate IsPlainId(x: string) {
    x != "" && ',' !in x && IsTrimmed(x)
  }

  /** `split` discards no piece when the last one is not empty. */
  lemma {:induction false} SplitKeepsNonEmptyLast(s: string)
    requires SeparatorPieces(s)[|SeparatorPieces(s)| - 1] != ""
    ensures Split(s) == SeparatorPieces(s)
  {
  }

  /** A comma followed by a text that does not start with a blank separates two pieces. */
  lemma {:induction false} SeparatorPiecesComma(a: string, b: string)
    requires ',' !in a
    requires b == [] || !IsBlank(b[0])
    ensures SeparatorPieces(a + "," + b) == [a] + SeparatorPieces(b)
  {
    assert a + "," + b == a + [','] + b;
    SeparatorPiecesCons(a, b);
    SkipSpacesNone(b);
  }

  /** A comma and one space followed by a text that does not start with a blank also
      separate two pieces: the space belongs to the separator. */
  lemma {:induction false} SeparatorPiecesCommaSpace(a: string, b: string)
    requires ',' !in a
    requires b == [] || !IsBlank(b[0])
    ensures SeparatorPieces(a + ", " + b) == [a] + SeparatorPieces(b)
  {
    var rest := " " + b;
    assert a + ", " + b == a + [','] + rest;
    SeparatorPiecesCons(a, rest);
    assert rest[1..] == b;
    SkipSpacesNone(b);
  }

  /** The value `a + ", " + b + ", ," + c`, regrouped the way the separators cut it; kept apart
      from the split proof, where the solver handles the regrouping poorly. */
  lemma {:induction false} ThreeWithBlankShape(a: string, b: string, c: string)
    ensures a + ", " + b + ", ," + c == a + ", " + (b + ", " + ("," + c))
  {
  }

  /** Separator pieces of `b + ", ," + c`: `b`, an empty piece, then `c`. */
  lemma {:induction false} SeparatorPiecesBlankMiddle(b: string, c: string)
    requires IsPlainId(b) && IsPlainId(c)
    ensures SeparatorPieces(b + ", " + ("," + c)) == [b, "", c]
  {
    assert SeparatorPieces("," + c) == ["", c] by {
      SeparatorPiecesNoComma(c);
      SeparatorPiecesComma("", c);
      assert "" + "," + c == "," + c;
    }
    SeparatorPiecesCommaSpace(b, "," + c);
  }

  /** `(a + ", " + b + ", ," + c).split(",\\s*")` cuts four pieces, the third empty. */
  lemma {:induction false} SplitThreeWithBlank(a: string, b: string, c: string)
    requires IsPlainId(a) && IsPlainId(b) && IsPlainId(c)
    ensures Split(a + ", " + b + ", ," + c) == [a, b, "", c]
  {
    var tail := b + ", " + ("," + c);
    ThreeWithBlankShape(a, b, c);
    SeparatorPiecesBlankMiddle(b, c);
    SeparatorPiecesCommaSpace(a, tail);
    SplitKeepsNonEmptyLast(a + ", " + tail);
  }

  /** A value listing three ids, with spaces after the commas and a blank entry among them,
      yields exactly those three ids. */
  lemma {:induction false} ThreeIdsWithBlank(a: string, b: string, c: string)
    requires IsPlainId(a) && IsPlainId(b) && IsPlainId(c)
    ensures ApplicationIds(Some(a + ", " + b + ", ," + c)) == Success({a, b, c})
  {
    var v := a + ", " + b + ", ," + c;
    SplitThreeWithBlank(a, b, c);
    TrimOfTrimmed(a);
    TrimOfTrimmed(b);
    TrimOfTrimmed(c);
    assert IdOf("") == {};
    IdsOfCons(a, [b, "", c]);
    IdsOfCons(b, ["", c]);
    IdsOfCons("", [c]);
    IdsOfCons(c, []);
    assert IdsOf(Split(v)) == {a, b, c};
  }

  /** Two ids separated by a bare comma yield exactly those two ids. */
  lemma {:induction false} TwoIds(a: string, b: string)
    requires IsPlainId(a) && IsPlainId(b)
    ensures ApplicationIds(Some(a + "," + b)) == Success({a, b})
  {
    SeparatorPiecesNoComma(b);
    SeparatorPiecesComma(a, b);
    SplitKeepsNonEmptyLast(a + "," + b);
    TrimOfTrimmed(a);
    TrimOfTrimmed(b);
    IdsOfCons(a, [b]);
    IdsOfCons(b, []);
    assert IdsOf(Split(a + "," + b)) == {a, b};
  }

  /** The value `"1234,5678"` yields both ids. */
  lemma {:induction false} TwoIdsWithoutSpaces()
    ensures ApplicationIds(Some("1234,5678")) == Success({"1234", "5678"})
  {
    assert "1234,5678" == "1234" + "," + "5678";
    TwoIds("1234", "5678");
  }

  /** The value `"1234, 5678, ,9012"` yields the three ids it lists; the blank one is dropped. */
  lemma {:induction false} ThreeIdsWithSpaces()
    ensures ApplicationIds(Some("1234, 5678, ,9012")) == Success({"1234", "5678", "9012"})
  {
    assert "1234, 5678, ,9012" == "1234" + ", " + "5678" + ", ," + "9012";
    ThreeIdsWithBlank("1234", "5678", "9012");
  }
}
