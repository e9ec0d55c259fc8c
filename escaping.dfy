/** The escape-resolution pass: one left-to-right scan that removes escape
    markers and forces the token each marker protects to literal text. */
module Escaping {
  import opened Tokens

  /** What a consumer of the pass receives: the tokens yielded, and whether the
      scan then stopped on a lookahead past the last token (an Escape token
      in last position that no earlier marker consumed). */
  datatype EscapeResult = EscapeResult(emitted: seq<Token>, overran: bool)

  function Prepend(t: Token, r: EscapeResult): EscapeResult
  {
    EscapeResult([t] + r.emitted, r.overran)
  }

  /** The tokens already yielded, followed by what the rest of the scan yields. */
  function Join(out: seq<Token>, r: EscapeResult): EscapeResult
  {
    EscapeResult(out + r.emitted, r.overran)
  }

  /** Independent reference definition of the pass, by recursion on the stream:
      a marker followed by a non-Text token is dropped and that token becomes
      Text; an Escape followed by a Text token becomes Text itself; an Escape
      with nothing after it overruns; anything else passes unchanged. */
  function Unescape(s: seq<Token>): EscapeResult
    decreases |s|
  {
    if s == [] then EscapeResult([], false)
    else if s[0].kind == Escape then
      if |s| == 1 then EscapeResult([], true)
      else if s[1].kind != Text then Prepend(SwitchToText(s[1]), Unescape(s[2..]))
      else Prepend(SwitchToText(s[0]), Unescape(s[1..]))
    else Prepend(s[0], Unescape(s[1..]))
  }

  /** `out` is `s` with some Escape tokens left out, in the same order, each
      remaining token either unchanged or switched to Text. */
  predicate Embeds(out: seq<Token>, s: seq<Token>)
    decreases |s|
  {
    if s == [] then out == []
    else
      || (s[0].kind == Escape && Embeds(out, s[1..]))
      || (out != [] && (out[0] == s[0] || out[0] == SwitchToText(s[0])) && Embeds(out[1..], s[1..]))
  }

  /** Where the scan stands at position `i`: what it has yielded so far, plus
      what the reference walk yields from here on, is the whole walk. With
      `escapeNext` set, the token at `i` is already committed as Text. */
  predicate ScanAt(tokens: seq<Token>, whole: EscapeResult, i: nat, out: seq<Token>, escapeNext: bool)
    requires i <= |tokens|
  {
    if escapeNext then i < |tokens| && whole == Join(out + [SwitchToText(tokens[i])], Unescape(tokens[i + 1..]))
    else whole == Join(out, Unescape(tokens[i..]))
  }

  /** The scan carrying the `escapeNext` flag, proved equal to the reference walk. */
  method RemoveEscaping(tokens: seq<Token>) returns (r: EscapeResult)
    ensures r == Unescape(tokens)
    ensures forall k :: 0 <= k < |r.emitted| ==> r.emitted[k].kind != Escape
    ensures r.overran ==> tokens[|tokens| - 1].kind == Escape
    ensures !r.overran ==> Embeds(r.emitted, tokens)
    ensures |r.emitted| == |tokens| - Markers(tokens)
  {
    ghost var whole := Unescape(tokens);
    var out: seq<Token> := [];
    var escapeNext := false;
    var i := 0;
    assert tokens[0..] == tokens;
    while i < |tokens|
      invariant 0 <= i <= |tokens|
      invariant ScanAt(tokens, whole, i, out, escapeNext)
    {
      if escapeNext {
        AdvanceEscaped(tokens, whole, i, out);
        escapeNext := false;
        out := out + [SwitchToText(tokens[i])];
      } else if tokens[i].kind == Escape {
        if i + 1 == |tokens| {
          // the lookahead `tokens[i + 1]` reads past the end: the scan stops here
          AdvanceOverrun(tokens, whole, i, out);
          r := EscapeResult(out, true);
          break;
        }
        if tokens[i + 1].kind != Text {
          AdvanceMarker(tokens, whole, i, out);
          escapeNext := true;
        } else {
          AdvanceEscapeText(tokens, whole, i, out);
          out := out + [SwitchToText(tokens[i])];
        }
      } else {
        AdvancePlain(tokens, whole, i, out);
        out := out + [tokens[i]];
      }
      i := i + 1;
    }
    if i == |tokens| {
      assert tokens[i..] == [];
      r := Join(out, Unescape([]));
    }
    NoEscapeEmitted(tokens);
    UnescapeOverran(tokens);
    UnescapeLength(tokens);
    if !r.overran {
      UnescapeEmbeds(tokens);
    }
  }

  /** The token after a marker is yielded as Text. */
  lemma AdvanceEscaped(tokens: seq<Token>, whole: EscapeResult, i: nat, out: seq<Token>)
    requires i < |tokens| && ScanAt(tokens, whole, i, out, true)
    ensures ScanAt(tokens, whole, i + 1, out + [SwitchToText(tokens[i])], false)
  {
  }

  /** An Escape in last position, not itself escaped: the walk overruns. */
  lemma AdvanceOverrun(tokens: seq<Token>, whole: EscapeResult, i: nat, out: seq<Token>)
    requires i + 1 == |tokens| && tokens[i].kind == Escape && ScanAt(tokens, whole, i, out, false)
    ensures whole == EscapeResult(out, true)
  {
    UnescapeFrom(tokens, i);
  }

  /** A marker before a non-Text token is dropped and escapes that token. */
  lemma AdvanceMarker(tokens: seq<Token>, whole: EscapeResult, i: nat, out: seq<Token>)
    requires i + 1 < |tokens| && tokens[i].kind == Escape && tokens[i + 1].kind != Text
    requires ScanAt(tokens, whole, i, out, false)
    ensures ScanAt(tokens, whole, i + 1, out, true)
  {
    UnescapeFrom(tokens, i);
    assert out + ([SwitchToText(tokens[i + 1])] + Unescape(tokens[i + 2..]).emitted)
        == (out + [SwitchToText(tokens[i + 1])]) + Unescape(tokens[i + 2..]).emitted;
  }

  /** An Escape before a Text token is yielded as Text itself. */
  lemma AdvanceEscapeText(tokens: seq<Token>, whole: EscapeResult, i: nat, out: seq<Token>)
    requires i + 1 < |tokens| && tokens[i].kind == Escape && tokens[i + 1].kind == Text
    requires ScanAt(tokens, whole, i, out, false)
    ensures ScanAt(tokens, whole, i + 1, out + [SwitchToText(tokens[i])], false)
  {
    UnescapeFrom(tokens, i);
    assert out + ([SwitchToText(tokens[i])] + Unescape(tokens[i + 1..]).emitted)
        == (out + [SwitchToText(tokens[i])]) + Unescape(tokens[i + 1..]).emitted;
  }

  /** Any other token passes unchanged. */
  lemma AdvancePlain(tokens: seq<Token>, whole: EscapeResult, i: nat, out: seq<Token>)
    requires i < |tokens| && tokens[i].kind != Escape && ScanAt(tokens, whole, i, out, false)
    ensures ScanAt(tokens, whole, i + 1, out + [tokens[i]], false)
  {
    UnescapeFrom(tokens, i);
    assert out + ([tokens[i]] + Unescape(tokens[i + 1..]).emitted)
        == (out + [tokens[i]]) + Unescape(tokens[i + 1..]).emitted;
  }

  /** One step of the reference walk, at position `i` of the stream. */
  lemma UnescapeFrom(s: seq<Token>, i: nat)
    requires i < |s|
    ensures s[i].kind == Escape && i + 1 == |s| ==> Unescape(s[i..]) == EscapeResult([], true)
    ensures s[i].kind == Escape && i + 1 < |s| && s[i + 1].kind != Text ==>
      Unescape(s[i..]) == Prepend(SwitchToText(s[i + 1]), Unescape(s[i + 2..]))
    ensures s[i].kind == Escape && i + 1 < |s| && s[i + 1].kind == Text ==>
      Unescape(s[i..]) == Prepend(SwitchToText(s[i]), Unescape(s[i + 1..]))
    ensures s[i].kind != Escape ==> Unescape(s[i..]) == Prepend(s[i], Unescape(s[i + 1..]))
  {
    assert s[i..][1..] == s[i + 1..];
    if i + 1 < |s| {
      assert s[i..][2..] == s[i + 2..];
    }
  }

  /** No Escape-kind token ever leaves the pass, not even before an overrun. */
  lemma {:induction false} NoEscapeEmitted(s: seq<Token>)
    ensures forall k :: 0 <= k < |Unescape(s).emitted| ==> Unescape(s).emitted[k].kind != Escape
    decreases |s|
  {
    if s == [] || (s[0].kind == Escape && |s| == 1) {
    } else if s[0].kind == Escape && s[1].kind != Text {
      NoEscapeEmitted(s[2..]);
    } else {
      NoEscapeEmitted(s[1..]);
    }
  }

  /** The pass overruns only when the last token is an Escape; so a stream
      whose last token is not an Escape is always processed to the end. */
  lemma {:induction false} UnescapeOverran(s: seq<Token>)
    ensures Unescape(s).overran ==> |s| > 0 && s[|s| - 1].kind == Escape
    decreases |s|
  {
    if s == [] || (s[0].kind == Escape && |s| == 1) {
    } else if s[0].kind == Escape && s[1].kind != Text {
      UnescapeOverran(s[2..]);
      assert |s[2..]| > 0 ==> s[2..][|s[2..]| - 1] == s[|s| - 1];
    } else {
      UnescapeOverran(s[1..]);
      assert |s[1..]| > 0 ==> s[1..][|s[1..]| - 1] == s[|s| - 1];
    }
  }

  /** A completed pass keeps the input order, drops only Escape tokens, and
      emits every other token unchanged or as Text. */
  lemma {:induction false} UnescapeEmbeds(s: seq<Token>)
    requires !Unescape(s).overran
    ensures Embeds(Unescape(s).emitted, s)
    decreases |s|
  {
    var out := Unescape(s).emitted;
    if s == [] {
    } else if s[0].kind == Escape && s[1].kind != Text {
      UnescapeEmbeds(s[2..]);
      assert out[1..] == Unescape(s[2..]).emitted;
      assert s[1..][1..] == s[2..];
      assert Embeds(out, s[1..]);
    } else {
      UnescapeEmbeds(s[1..]);
      assert out[1..] == Unescape(s[1..]).emitted;
    }
  }

  /** The number of Escape tokens in a stream. */
  function EscapeCount(s: seq<Token>): nat
    decreases |s|
  {
    if s == [] then 0 else (if s[0].kind == Escape then 1 else 0) + EscapeCount(s[1..])
  }

  /** Embedding drops only Escape tokens: the output is no longer than the
      input, and shorter by at most the number of Escape tokens. */
  lemma {:induction false} EmbedsLength(out: seq<Token>, s: seq<Token>)
    requires Embeds(out, s)
    ensures |out| <= |s| && |s| - |out| <= EscapeCount(s)
    decreases |s|
  {
    if s != [] {
      if s[0].kind == Escape && Embeds(out, s[1..]) {
        EmbedsLength(out, s[1..]);
      } else {
        EmbedsLength(out[1..], s[1..]);
      }
    }
  }

  /** The number of Escape tokens the walk drops: every marker that escapes a
      non-Text token, and an unconsumed Escape in last position. An Escape
      before a Text token is kept (as Text), and an escaped Escape is the
      token a marker protects. */
  function Markers(s: seq<Token>): nat
    decreases |s|
  {
    if s == [] then 0
    else if s[0].kind == Escape then
      if |s| == 1 then 1
      else if s[1].kind != Text then 1 + Markers(s[2..])
      else Markers(s[1..])
    else Markers(s[1..])
  }

  /** The walk drops exactly its markers and nothing else, and only Escape
      tokens are markers. */
  lemma {:induction false} UnescapeLength(s: seq<Token>)
    ensures |Unescape(s).emitted| == |s| - Markers(s)
    ensures Markers(s) <= EscapeCount(s)
    decreases |s|
  {
    if s == [] {
    } else if s[0].kind == Escape && |s| == 1 {
      assert s[1..] == [];
    } else if s[0].kind == Escape && s[1].kind != Text {
      UnescapeLength(s[2..]);
      assert s[1..][1..] == s[2..];
      assert EscapeCount(s) == 1 + EscapeCount(s[1..]);
    } else {
      UnescapeLength(s[1..]);
    }
  }

  /** A stream without Escape tokens passes through unchanged. */
  lemma {:induction false} UnescapeWithoutEscapes(s: seq<Token>)
    requires forall k :: 0 <= k < |s| ==> s[k].kind != Escape
    ensures Unescape(s) == EscapeResult(s, false)
    decreases |s|
  {
    if s != [] {
      UnescapeWithoutEscapes(s[1..]);
      assert [s[0]] + s[1..] == s;
    }
  }

  /** Running the pass a second time on its completed output changes nothing. */
  lemma UnescapeIdempotent(s: seq<Token>)
    requires !Unescape(s).overran
    ensures Unescape(Unescape(s).emitted) == Unescape(s)
  {
    NoEscapeEmitted(s);
    UnescapeWithoutEscapes(Unescape(s).emitted);
  }

  /** An escaped delimiter reaches the pairing pass as a single Text token over its own span. */
  lemma EscapedTag(e: Token, t: Token)
    requires e.kind == Escape && t.kind == Tag
    ensures Unescape([e, t]) == EscapeResult([SwitchToText(t)], false)
  {
    assert [e, t][2..] == [];
  }

  /** An Escape that is itself escaped is the last token without an overrun:
      the lookahead happens only for an Escape the scan has not consumed. */
  lemma EscapedEscapeAtEnd(e1: Token, e2: Token)
    requires e1.kind == Escape && e2.kind == Escape
    ensures Unescape([e1, e2]) == EscapeResult([SwitchToText(e2)], false)
  {
    assert [e1, e2][2..] == [];
  }
}
