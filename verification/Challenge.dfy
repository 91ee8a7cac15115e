/**
 Reading a registry's Bearer challenge (section 3 of RFC 6750): the parameters are separated by the
 commas outside quotes, and the realm and the service are looked up among them.
 */
module Challenge {
  import opened Wrappers
  import opened Strings

  // ---------- Splitting at the commas outside quotes ----------

  ghost function Quotes(s: string): nat {
    if s == "" then 0 else Quotes(s[..|s| - 1]) + if s[|s| - 1] == '"' then 1 else 0
  }

  ghost predicate Open(s: string) {
    Quotes(s) % 2 == 1
  }

  /** Each comma of `s` stands inside quotes opened in `s`. */
  ghost predicate NoBareComma(s: string) {
    forall i :: 0 <= i < |s| && s[i] == ',' ==> Open(s[..i])
  }

  ghost function Joined(pieces: seq<string>): string
    requires pieces != []
  {
    if |pieces| == 1 then pieces[0] else Joined(pieces[..|pieces| - 1]) + "," + pieces[|pieces| - 1]
  }

  /** `pieces` are what lies between the separating commas of `text`: joined by commas they are the
      text, none has a bare comma, and all but the last close their quotes. */
  ghost predicate IsSplit(text: string, pieces: seq<string>) {
    && pieces != [] && Joined(pieces) == text
    && (forall k :: 0 <= k < |pieces| ==> NoBareComma(pieces[k]))
    && (forall k :: 0 <= k < |pieces| - 1 ==> !Open(pieces[k]))
  }

  /** The one way to split a text. */
  ghost function Pieces(text: string): (pieces: seq<string>)
    ensures pieces != []
  {
    if text == "" then [""]
    else
      var c, before := text[|text| - 1], Pieces(text[..|text| - 1]);
      var last := before[|before| - 1];
      if c == ',' && !Open(last) then before + [""] else before[..|before| - 1] + [last + [c]]
  }

  lemma PiecesSnoc(text: string, before: seq<string>, last: string, c: char)
    requires Pieces(text) == before + [last]
    ensures c == ',' && !Open(last) ==> Pieces(text + [c]) == before + [last] + [""]
    ensures !(c == ',' && !Open(last)) ==> Pieces(text + [c]) == before + [last + [c]]
  {
    assert (text + [c])[..|text|] == text;
    assert (before + [last])[..|before|] == before;
    hide Open;
  }

  /** A separating comma starts a new piece. */
  lemma NewPiece(text: string, pieces: seq<string>)
    requires pieces != []
    ensures IsSplit(text, pieces) && !Open(pieces[|pieces| - 1]) <==> IsSplit(text + [','], pieces + [""])
  {
    var more, n := pieces + [""], |pieces|;
    assert more[..n] == pieces;
    hide Open;
    assert Joined(more) == Joined(pieces) + [','];
    assert Joined(pieces) == (text + [','])[..|text|] <==> Joined(more) == text + [','];
    assert forall k :: 0 <= k < n ==> more[k] == pieces[k];
    assert more[n] == "";
  }

  /** Any other character belongs to the last piece. */
  lemma LongerPiece(text: string, rest: seq<string>, last: string, c: char)
    ensures IsSplit(text, rest + [last]) && (c == ',' ==> Open(last)) <==> IsSplit(text + [c], rest + [last + [c]])
  {
    var few, many, n := rest + [last], rest + [last + [c]], |rest|;
    assert few[..n] == rest == many[..n];
    hide Open;
    assert Joined(many) == Joined(few) + [c];
    assert Joined(few) == (text + [c])[..|text|] <==> Joined(many) == text + [c];
    assert forall k :: 0 <= k < n ==> few[k] == many[k];
    assert few[n] == last && many[n] == last + [c];
    LastComma(last, c);
    hide NoBareComma, Joined;
  }

  lemma LastComma(s: string, c: char)
    ensures NoBareComma(s + [c]) <==> NoBareComma(s) && (c == ',' ==> Open(s))
  {
    var t := s + [c];
    assert t[..|s|] == s && t[|s|] == c;
    assert forall i :: 0 <= i < |s| ==> t[..i] == s[..i] && t[i] == s[i];
  }

  lemma {:induction false} PiecesAreSplit(text: string)
    ensures IsSplit(text, Pieces(text))
  {
    if text != "" {
      var rest, c := text[..|text| - 1], text[|text| - 1];
      PiecesAreSplit(rest);
      var before, last := Pieces(rest)[..|Pieces(rest)| - 1], Pieces(rest)[|Pieces(rest)| - 1];
      assert text == rest + [c] && Pieces(rest) == before + [last];
      hide *;
      PiecesSnoc(rest, before, last, c);
      NewPiece(rest, before + [last]);
      LongerPiece(rest, before, last, c);
    }
  }

  /** Any split of a text is the one computed. */
  lemma {:induction false} SplitIsUnique(text: string, pieces: seq<string>)
    requires IsSplit(text, pieces)
    ensures pieces == Pieces(text)
    decreases |text|
  {
    var n := |pieces| - 1;
    var last, before := pieces[n], pieces[..n];
    assert pieces == before + [last];
    if text == "" {
      assert n == 0;
    } else {
      LastOfJoined(pieces);
      var rest, c := text[..|text| - 1], text[|text| - 1];
      assert text == rest + [c];
      hide *;
      if last == "" {
        NewPiece(rest, before);
        SplitIsUnique(rest, before);
        var k := |before| - 1;
        assert before == before[..k] + [before[k]];
        PiecesSnoc(rest, before[..k], before[k], c);
      } else {
        var m := |last| - 1;
        assert last == last[..m] + [c];
        LongerPiece(rest, before, last[..m], c);
        SplitIsUnique(rest, before + [last[..m]]);
        PiecesSnoc(rest, before, last[..m], c);
      }
    }
  }

  /** The last character joined is that of the last piece, or the comma before it. */
  lemma LastOfJoined(pieces: seq<string>)
    requires pieces != [] && Joined(pieces) != ""
    ensures var last, text := pieces[|pieces| - 1], Joined(pieces);
      if last == "" then |pieces| > 1 && text[|text| - 1] == ',' else text[|text| - 1] == last[|last| - 1]
  {
  }

  /** The trimmed pieces; a last piece without any text is dropped. */
  ghost function Parts(pieces: seq<string>): seq<string>
    requires pieces != []
  {
    var kept := if pieces[|pieces| - 1] == "" then pieces[..|pieces| - 1] else pieces;
    seq(|kept|, k requires 0 <= k < |kept| => TrimSpace(kept[k]))
  }

  method SplitAuthParams(params: string) returns (parts: seq<string>)
    ensures parts == Parts(Pieces(params))
  {
    hide *;
    parts := [];
    var current, inQuote := "", false;
    NothingSplit(params);
    for i := 0 to |params|
      invariant SplitSoFar(params[..i], parts, current, inQuote)
    {
      OneMoreSplit(params[..i], parts, current, inQuote, params[i]);
      assert params[..i + 1] == params[..i] + [params[i]];
      match params[i] {
        case '"' =>
          inQuote := !inQuote;
          current := current + ['"'];
        case ',' =>
          if inQuote {
            current := current + [','];
            continue;
          }
          parts := parts + [TrimSpace(current)];
          current := "";
        case r =>
          current := current + [r];
      }
    }
    assert params[..|params|] == params;
    AllSplit(params, parts, current, inQuote);
    if |current| > 0 {
      parts := parts + [TrimSpace(current)];
    }
  }

  /** The closed pieces trimmed, the open one as it stands, and whether it is inside quotes. */
  ghost predicate SplitSoFar(text: string, parts: seq<string>, current: string, inQuote: bool) {
    var pieces := Pieces(text);
    && current == pieces[|pieces| - 1] && inQuote == Open(current)
    && |parts| == |pieces| - 1 && forall k :: 0 <= k < |parts| ==> parts[k] == TrimSpace(pieces[k])
  }

  lemma NothingSplit(params: string)
    ensures SplitSoFar(params[..0], [], "", false)
  {
  }

  lemma OneMoreSplit(text: string, parts: seq<string>, current: string, inQuote: bool, c: char)
    requires SplitSoFar(text, parts, current, inQuote)
    ensures if c == ',' && !inQuote then SplitSoFar(text + [c], parts + [TrimSpace(current)], "", false)
            else SplitSoFar(text + [c], parts, current + [c], if c == '"' then !inQuote else inQuote)
  {
    var pieces := Pieces(text);
    var before := pieces[..|pieces| - 1];
    assert pieces == before + [current];
    PiecesSnoc(text, before, current, c);
    QuoteSnoc(current, c);
    hide TrimSpace, Pieces, Open;
    if c == ',' && !inQuote {
      Closed(text + [c], before + [current], parts + [TrimSpace(current)], "");
    } else {
      Closed(text + [c], before, parts, current + [c]);
    }
  }

  lemma Closed(text: string, before: seq<string>, parts: seq<string>, current: string)
    requires Pieces(text) == before + [current] && |parts| == |before|
    requires forall k :: 0 <= k < |parts| ==> parts[k] == TrimSpace(before[k])
    ensures SplitSoFar(text, parts, current, Open(current))
  {
    hide TrimSpace, Pieces, Open;
  }

  lemma QuoteSnoc(s: string, c: char)
    ensures Open(s + [c]) == if c == '"' then !Open(s) else Open(s)
    ensures !Open("")
  {
    assert (s + [c])[..|s|] == s;
  }

  lemma AllSplit(text: string, parts: seq<string>, current: string, inQuote: bool)
    requires SplitSoFar(text, parts, current, inQuote)
    ensures Parts(Pieces(text)) == if |current| > 0 then parts + [TrimSpace(current)] else parts
  {
    hide TrimSpace, Pieces;
  }

  // ---------- Looking up the realm and the service ----------

  function TrimLeftQuotes(s: string): string {
    if s != "" && s[0] == '"' then TrimLeftQuotes(s[1..]) else s
  }

  function TrimRightQuotes(s: string): string {
    if s != "" && s[|s| - 1] == '"' then TrimRightQuotes(s[..|s| - 1]) else s
  }

  /** The first position of `c`, or the length if there is none. */
  function IndexOfChar(s: string, c: char): (i: nat)
    ensures i <= |s| && c !in s[..i] && (i < |s| ==> s[i] == c)
  {
    if s == "" || s[0] == c then 0 else
      assert forall k :: 0 <= k <= |s| - 1 ==> s[..k + 1] == [s[0]] + s[1..][..k];
      1 + IndexOfChar(s[1..], c)
  }

  /** A part's key, in lower case, and its value without quotes; none without an equals sign. */
  function ParamOf(part: string): Option<(string, string)> {
    var i := IndexOfChar(part, '=');
    if i == |part| then None
    else Some((ToLower(TrimSpace(part[..i])), TrimRightQuotes(TrimLeftQuotes(TrimSpace(part[i + 1..])))))
  }

  /** The value of the last part with this key, blank if there is none. */
  ghost function LastValue(parts: seq<string>, key: string): string {
    if parts == [] then ""
    else
      var param := ParamOf(parts[|parts| - 1]);
      if param.Some? && param.value.0 == key then param.value.1 else LastValue(parts[..|parts| - 1], key)
  }

  const SCHEME: string := "bearer "

  function BearerParams(challenge: string): Option<string> {
    var text := TrimSpace(challenge);
    if SCHEME <= ToLower(text) then Some(TrimSpace(text[|SCHEME|..])) else None
  }

  method ParseWWWAuth(challenge: string) returns (realm: string, service: string)
    ensures BearerParams(challenge).None? ==> realm == service == ""
    ensures BearerParams(challenge).Some? ==>
      var parts := Parts(Pieces(BearerParams(challenge).value));
      realm == LastValue(parts, "realm") && service == LastValue(parts, "service")
  {
    realm, service := "", "";
    var text := TrimSpace(challenge);
    if !(SCHEME <= ToLower(text)) {
      return;
    }
    var params := TrimSpace(text[|SCHEME|..]);
    var parts := SplitAuthParams(params);
    for i := 0 to |parts|
      invariant realm == LastValue(parts[..i], "realm") && service == LastValue(parts[..i], "service")
    {
      assert parts[..i + 1][..i] == parts[..i];
      var param := ParamOf(parts[i]);
      if param.None? {
        continue;
      }
      var (key, value) := param.value;
      if key == "realm" {
        realm := value;
      } else if key == "service" {
        service := value;
      }
    }
    assert parts[..|parts|] == parts;
  }

  // ---------- Round trip ----------

  /** One printed parameter, with the optional white space a list allows around its commas
      (sections 5.6.1 and 11.2 of RFC 9110). */
  datatype Param = Param(lead: string, key: string, value: string, trail: string)

  ghost predicate IsKey(s: string) {
    s != "" && forall i :: 0 <= i < |s| ==> !IsSpace(s[i]) && s[i] != '"' && s[i] != ',' && s[i] != '='
  }

  /** A quoted value may hold commas, equals signs and spaces, but no quote. */
  ghost predicate IsParam(p: Param) {
    Blank(p.lead) && Blank(p.trail) && IsKey(p.key) && '"' !in p.value
  }

  ghost function Core(p: Param): string {
    p.key + "=" + Quoted(p.value)
  }

  ghost function Quoted(value: string): string {
    "\"" + value + "\""
  }

  ghost function Print(p: Param): string {
    p.lead + Core(p) + p.trail
  }

  ghost function Prints(params: seq<Param>): (prints: seq<string>)
    ensures |prints| == |params|
  {
    seq(|params|, k requires 0 <= k < |params| => Print(params[k]))
  }

  ghost function PrintChallenge(scheme: string, params: seq<Param>): string
    requires params != []
  {
    scheme + " " + Joined(Prints(params))
  }

  /** No two keys agree up to case. */
  ghost predicate DistinctKeys(params: seq<Param>) {
    forall i, j :: 0 <= i < j < |params| ==> ToLower(params[i].key) != ToLower(params[j].key)
  }

  /** The parameters without the outermost white space, which trimming removes. */
  ghost function Tight(params: seq<Param>): seq<Param>
    requires params != []
  {
    var first := params[0 := params[0].(lead := "")];
    first[|params| - 1 := first[|params| - 1].(trail := "")]
  }

  lemma TightKeeps(params: seq<Param>)
    requires params != []
    ensures var tight := Tight(params);
      |tight| == |params| && forall i :: 0 <= i < |params| ==>
        tight[i].key == params[i].key && tight[i].value == params[i].value
  {
  }

  lemma SameKeys(a: seq<Param>, b: seq<Param>)
    requires |a| == |b| && forall i :: 0 <= i < |a| ==> a[i].key == b[i].key
    ensures DistinctKeys(a) <==> DistinctKeys(b)
  {
  }

  // ---------- Joining and trimming ----------

  lemma {:induction false} JoinedPrepend(pieces: seq<string>, x: string)
    requires pieces != []
    ensures Joined(pieces[0 := x + pieces[0]]) == x + Joined(pieces)
  {
    var n := |pieces| - 1;
    if n > 0 {
      JoinedPrepend(pieces[..n], x);
      assert pieces[0 := x + pieces[0]][..n] == pieces[..n][0 := x + pieces[..n][0]];
    }
  }

  lemma JoinedAppend(pieces: seq<string>, y: string)
    requires pieces != []
    ensures var n := |pieces| - 1; Joined(pieces[n := pieces[n] + y]) == Joined(pieces) + y
  {
    var n := |pieces| - 1;
    assert pieces[n := pieces[n] + y][..n] == pieces[..n];
  }

  lemma {:induction false} JoinedStarts(pieces: seq<string>)
    requires pieces != []
    ensures pieces[0] <= Joined(pieces)
  {
    if |pieces| > 1 { JoinedStarts(pieces[..|pieces| - 1]); }
  }

  /** Text with something other than white space at both ends. */
  ghost predicate Solid(s: string) {
    s != "" && !IsSpace(s[0]) && !IsSpace(s[|s| - 1])
  }

  lemma {:induction false} TrimLeftBlank(a: string, s: string)
    requires Blank(a) && s != "" && !IsSpace(s[0])
    ensures TrimLeft(a + s) == s
  {
    if a == "" {
      assert a + s == s;
    } else {
      TrimLeftBlank(a[1..], s);
      assert (a + s)[1..] == a[1..] + s;
    }
  }

  lemma {:induction false} TrimRightBlank(s: string, b: string)
    requires Blank(b) && s != "" && !IsSpace(s[|s| - 1])
    ensures TrimRight(s + b) == s
  {
    if b == "" {
      assert s + b == s;
      TrimRightKeepsSolid(s);
    } else {
      var m := |b| - 1;
      TrimRightBlank(s, b[..m]);
      assert (s + b)[..|s + b| - 1] == s + b[..m];
    }
  }

  lemma TrimPadded(a: string, s: string, b: string)
    requires Blank(a) && Solid(s) && Blank(b)
    ensures TrimSpace(a + s + b) == s
  {
    assert a + s + b == a + (s + b);
    TrimLeftBlank(a, s + b);
    TrimRightBlank(s, b);
  }

  lemma CoreIsSolid(p: Param)
    requires IsParam(p)
    ensures Solid(Core(p)) && TrimSpace(Print(p)) == Core(p)
  {
    assert Core(p)[0] == p.key[0];
    assert Solid(Core(p));
    TrimPadded(p.lead, Core(p), p.trail);
  }

  lemma TightIsPrinted(params: seq<Param>)
    requires params != [] && forall i :: 0 <= i < |params| ==> IsParam(params[i])
    ensures var tight, n := Tight(params), |params| - 1;
      && |tight| == |params| && (forall i :: 0 <= i < |tight| ==> IsParam(tight[i]))
      && Joined(Prints(params)) == params[0].lead + Joined(Prints(tight)) + params[n].trail
      && Solid(Joined(Prints(tight)))
  {
    var n := |params| - 1;
    var tight := Tight(params);
    var lead, trail := params[0].lead, params[n].trail;
    forall i | 0 <= i < |tight| ensures IsParam(tight[i]) {
      assert IsParam(params[i]) && Blank("");
    }
    assert tight[0].lead == "" && tight[n].trail == "";
    hide *;
    CoreIsSolid(tight[0]);
    CoreIsSolid(tight[n]);
    EndsAreSolid(tight);
    var pieces := Prints(tight);
    JoinedAppend(pieces, trail);
    var closed := pieces[n := pieces[n] + trail];
    JoinedPrepend(closed, lead);
    PrintsBack(params);
    assert lead + (Joined(pieces) + trail) == lead + Joined(pieces) + trail;
  }

  /** The tight forms print as the parameters do once the outermost pads are added back. */
  lemma PrintsBack(params: seq<Param>)
    requires params != []
    ensures var pieces, n := Prints(Tight(params)), |params| - 1;
      && |pieces| == |params|
      && var closed := pieces[n := pieces[n] + params[n].trail];
         closed[0 := params[0].lead + closed[0]] == Prints(params)
  {
    var pieces, n := Prints(Tight(params)), |params| - 1;
    var closed := pieces[n := pieces[n] + params[n].trail];
    forall i | 0 <= i <= n ensures closed[0 := params[0].lead + closed[0]][i] == Print(params[i]) {
      PadsBack(params, i);
    }
    hide Print, Tight;
  }

  /** Each parameter prints as its tight form with its outermost pads added back. */
  lemma PadsBack(params: seq<Param>, i: nat)
    requires i < |params|
    ensures var tight, n := Tight(params), |params| - 1;
      Print(params[i]) ==
      (if i == 0 then params[0].lead else "") + (Print(tight[i]) + if i == n then params[n].trail else "")
  {
  }

  lemma EndsAreSolid(tight: seq<Param>)
    requires tight != [] && tight[0].lead == "" && tight[|tight| - 1].trail == ""
    requires Solid(Core(tight[0])) && Solid(Core(tight[|tight| - 1]))
    ensures Solid(Joined(Prints(tight)))
  {
    var pieces := Prints(tight);
    JoinedStarts(pieces);
    assert Print(tight[0])[0] == Core(tight[0])[0];
    LastOfJoined(pieces);
  }

  // ---------- Reading the scheme, the pieces and the values ----------

  lemma SchemeIsRead(scheme: string, params: seq<Param>)
    requires ToLower(scheme) == SCHEME[..6] && params != []
    requires forall i :: 0 <= i < |params| ==> IsParam(params[i])
    ensures BearerParams(PrintChallenge(scheme, params)) == Some(Joined(Prints(Tight(params))))
  {
    TightIsPrinted(params);
    var lead, body, trail := params[0].lead, Joined(Prints(Tight(params))), params[|params| - 1].trail;
    assert Blank(lead) && Blank(trail) by { assert IsParam(params[0]) && IsParam(params[|params| - 1]); }
    assert Blank("");
    var challenge := PrintChallenge(scheme, params);
    assert challenge == scheme + " " + Joined(Prints(params));
    hide *;
    HeadIsRead(scheme, lead, body);
    var text := scheme + " " + lead + body;
    Regroup(scheme + " ", lead, body, trail);
    TrimPadded("", text, trail);
    BearerIsRead(challenge, text);
  }

  lemma Regroup(a: string, b: string, c: string, d: string)
    ensures a + (b + c + d) == "" + (a + b + c) + d
  {
  }

  lemma BearerIsRead(challenge: string, text: string)
    requires TrimSpace(challenge) == text && SCHEME <= ToLower(text)
    ensures BearerParams(challenge) == Some(TrimSpace(text[|SCHEME|..]))
  {
  }

  /** What follows the scheme is read without its leading white space. */
  lemma HeadIsRead(scheme: string, lead: string, body: string)
    requires ToLower(scheme) == SCHEME[..6] && Blank(lead) && Solid(body)
    ensures var text := scheme + " " + lead + body;
      Solid(text) && SCHEME <= ToLower(text) && TrimSpace(text[|SCHEME|..]) == body
  {
    var text := scheme + " " + lead + body;
    assert ToLower(scheme)[0] == LowerChar(scheme[0]) == 'b';
    assert text[0] == scheme[0] && text[|text| - 1] == body[|body| - 1];
    var lower := ToLower(text);
    forall i | 0 <= i < 7 ensures lower[i] == SCHEME[i] {
      if i < 6 { assert text[i] == scheme[i] && ToLower(scheme)[i] == SCHEME[i]; }
    }
    assert text[7..] == lead + body + "";
    TrimPadded(lead, body, "");
    hide ToLower, TrimSpace, LowerChar;
    assert SCHEME == lower[..7];
  }

  lemma {:induction false} QuotesConcat(a: string, b: string)
    ensures Quotes(a + b) == Quotes(a) + Quotes(b)
  {
    if b == "" {
      assert a + b == a;
    } else {
      var m := |b| - 1;
      QuotesConcat(a, b[..m]);
      assert (a + b)[..|a + b| - 1] == a + b[..m];
    }
  }

  lemma {:induction false} NoQuotes(s: string)
    requires '"' !in s
    ensures Quotes(s) == 0
  {
    if s != "" {
      assert '"' !in s[..|s| - 1];
      NoQuotes(s[..|s| - 1]);
    }
  }

  lemma OneQuote(head: string, value: string)
    requires '"' !in head && '"' !in value
    ensures Quotes(head + "\"" + value) == 1
  {
    NoQuotes(head);
    NoQuotes(value);
    QuotesConcat(head, "\"");
    QuotesConcat(head + "\"", value);
    assert "\""[..0] == "";
  }

  /** A printed parameter is one piece: its commas are quoted and its quotes are closed. */
  lemma PrintIsPiece(p: Param)
    requires IsParam(p)
    ensures NoBareComma(Print(p)) && !Open(Print(p))
  {
    var head := p.lead + p.key + "=";
    assert Print(p) == head + "\"" + p.value + ("\"" + p.trail);
    assert '"' !in head && ',' !in head && '"' !in p.trail && ',' !in p.trail;
    hide IsParam, Print;
    OneQuote(head, p.value);
    OneQuote("", p.trail);
    assert "" + "\"" + p.trail == "\"" + p.trail;
    QuotesConcat(head + "\"" + p.value, "\"" + p.trail);
    CommasAreInside(head, p.value, p.trail);
  }

  lemma CommasAreInside(head: string, value: string, trail: string)
    requires '"' !in head && ',' !in head && '"' !in value && ',' !in trail
    ensures NoBareComma(head + "\"" + value + ("\"" + trail))
  {
    var text, after := head + "\"" + value + ("\"" + trail), "\"" + trail;
    assert ',' !in after;
    hide Quotes;
    forall i | 0 <= i < |text| && text[i] == ',' ensures Open(text[..i]) {
      var j := i - |head| - 1;
      assert text[..i] == head + "\"" + value[..j];
      OneQuote(head, value[..j]);
    }
  }

  lemma PrintsAreSplit(params: seq<Param>)
    requires params != [] && forall i :: 0 <= i < |params| ==> IsParam(params[i])
    ensures IsSplit(Joined(Prints(params)), Prints(params))
  {
    forall k | 0 <= k < |params| ensures NoBareComma(Prints(params)[k]) && !Open(Prints(params)[k]) {
      PrintIsPiece(params[k]);
    }
    hide Joined, NoBareComma, Open;
  }

  ghost function Cores(params: seq<Param>): seq<string> {
    seq(|params|, k requires 0 <= k < |params| => Core(params[k]))
  }

  lemma PartsAreCores(params: seq<Param>)
    requires params != [] && forall i :: 0 <= i < |params| ==> IsParam(params[i])
    ensures Parts(Prints(params)) == Cores(params)
  {
    forall k | 0 <= k < |params| ensures TrimSpace(Prints(params)[k]) == Cores(params)[k] {
      CoreIsSolid(params[k]);
    }
    assert Print(params[|params| - 1]) != "";
  }

  lemma {:induction false} FoundAt(s: string, c: char, n: nat)
    requires n < |s| && s[n] == c && c !in s[..n]
    ensures IndexOfChar(s, c) == n
  {
    if n > 0 {
      assert s[..n][0] == s[0];
      assert s[1..][..n - 1] == s[..n][1..];
      FoundAt(s[1..], c, n - 1);
    }
  }

  lemma CoreIsRead(p: Param)
    requires IsParam(p)
    ensures ParamOf(Core(p)) == Some((ToLower(p.key), p.value))
  {
    var i := |p.key|;
    assert Core(p)[..i] == p.key && Core(p)[i] == '=';
    FoundAt(Core(p), '=', i);
    assert Core(p)[..i] == p.key && Core(p)[i + 1..] == Quoted(p.value);
    TrimSpaceKeepsSolid(p.key);
    TrimSpaceKeepsSolid(Quoted(p.value));
    QuotesTrimmed(p.value);
  }

  lemma QuotesTrimmed(value: string)
    requires '"' !in value
    ensures TrimRightQuotes(TrimLeftQuotes(Quoted(value))) == value
  {
    assert Quoted(value)[1..] == value + "\"";
    if value == "" {
      assert TrimLeftQuotes("\"") == TrimLeftQuotes("");
    } else {
      assert (value + "\"")[..|value|] == value;
    }
  }

  lemma LastIsRead(params: seq<Param>, key: string)
    requires params != [] && IsParam(params[|params| - 1])
    ensures var n := |params| - 1;
      LastValue(Cores(params), key) ==
      if ToLower(params[n].key) == key then params[n].value else LastValue(Cores(params[..n]), key)
  {
    var n := |params| - 1;
    CoreIsRead(params[n]);
    assert Cores(params)[..n] == Cores(params[..n]);
    hide IsParam, ParamOf, Core, ToLower;
  }

  /** Under distinct keys a value is found wherever it stands. */
  lemma {:induction false} ReadAt(params: seq<Param>, i: nat)
    requires i < |params| && DistinctKeys(params) && forall k :: 0 <= k < |params| ==> IsParam(params[k])
    ensures LastValue(Cores(params), ToLower(params[i].key)) == params[i].value
  {
    var n := |params| - 1;
    hide IsParam, LastValue, Cores, ToLower;
    LastIsRead(params, ToLower(params[i].key));
    if i < n { ReadAt(params[..n], i); }
  }

  lemma {:induction false} ReadNone(params: seq<Param>, key: string)
    requires forall k :: 0 <= k < |params| ==> IsParam(params[k]) && ToLower(params[k].key) != key
    ensures LastValue(Cores(params), key) == ""
  {
    if params != [] {
      LastIsRead(params, key);
      hide IsParam, LastValue, Cores, ToLower;
      ReadNone(params[..|params| - 1], key);
    }
  }

  lemma CoresAreRead(params: seq<Param>, key: string)
    requires DistinctKeys(params) && forall i :: 0 <= i < |params| ==> IsParam(params[i])
    ensures forall i :: 0 <= i < |params| && ToLower(params[i].key) == key ==>
              LastValue(Cores(params), key) == params[i].value
    ensures (forall i :: 0 <= i < |params| ==> ToLower(params[i].key) != key) ==> LastValue(Cores(params), key) == ""
  {
    hide *;
    forall i | 0 <= i < |params| && ToLower(params[i].key) == key
      ensures LastValue(Cores(params), key) == params[i].value
    {
      ReadAt(params, i);
    }
    if forall i :: 0 <= i < |params| ==> ToLower(params[i].key) != key {
      ReadNone(params, key);
    }
  }

  /** The word Bearer, each letter in either case. */
  ghost predicate IsBearer(s: string) {
    |s| == 6 && s[0] in "bB" && s[1] in "eE" && s[2] in "aA" && s[3] in "rR" && s[4] in "eE" && s[5] in "rR"
  }

  lemma BearerInAnyCase(s: string)
    ensures IsBearer(s) <==> ToLower(s) == SCHEME[..6]
  {
    var word := SCHEME[..6];
    assert word == ['b', 'e', 'a', 'r', 'e', 'r'];
    SpelledInAnyCase(s, word);
    hide ToLower;
    if |s| == 6 {
      Letter(s[0], 'b', 'B');
      Letter(s[1], 'e', 'E');
      Letter(s[2], 'a', 'A');
      Letter(s[3], 'r', 'R');
      Letter(s[4], 'e', 'E');
      Letter(s[5], 'r', 'R');
    }
  }

  lemma Letter(c: char, l: char, u: char)
    requires IsCapitalOf(u, l)
    ensures c == l || IsCapitalOf(c, l) <==> c in [l, u]
  {
  }

  /** A challenge is looked into exactly if, trimmed, it begins with that word and a space. */
  lemma OnlyBearerIsRead(challenge: string)
    ensures var t := TrimSpace(challenge);
      && (BearerParams(challenge).Some? <==> |t| >= 7 && IsBearer(t[..6]) && t[6] == ' ')
      && (BearerParams(challenge).Some? ==> BearerParams(challenge).value == TrimSpace(t[7..]))
  {
    var t := TrimSpace(challenge);
    hide TrimSpace;
    if |t| >= 7 {
      BearerInAnyCase(t[..6]);
      assert ToLower(t)[..6] == ToLower(t[..6]);
      assert ToLower(t)[6] == LowerChar(t[6]);
      assert SCHEME == SCHEME[..6] + " ";
      assert ToLower(t)[..7] == ToLower(t)[..6] + [ToLower(t)[6]];
      hide ToLower, IsBearer;
    }
  }

  /** Parsing a printed challenge gives back each value under its key, whatever the order of the
      parameters, the spacing and the case of scheme and keys; a key that was not printed is blank. In
      particular the realm and the service come back exactly. */
  lemma RoundTrip(scheme: string, params: seq<Param>, key: string)
    requires IsBearer(scheme) && params != [] && DistinctKeys(params)
    requires forall i :: 0 <= i < |params| ==> IsParam(params[i])
    ensures var read := BearerParams(PrintChallenge(scheme, params));
      && read.Some?
      && (forall i :: 0 <= i < |params| && ToLower(params[i].key) == key ==>
            LastValue(Parts(Pieces(read.value)), key) == params[i].value)
      && ((forall i :: 0 <= i < |params| ==> ToLower(params[i].key) != key) ==>
            LastValue(Parts(Pieces(read.value)), key) == "")
  {
    hide *;
    BearerInAnyCase(scheme);
    var tight := Tight(params);
    TightIsPrinted(params);
    TightKeeps(params);
    SameKeys(params, tight);
    SchemeIsRead(scheme, params);
    PrintsAreSplit(tight);
    SplitIsUnique(Joined(Prints(tight)), Prints(tight));
    PartsAreCores(tight);
    CoresAreRead(tight, key);
  }
}
