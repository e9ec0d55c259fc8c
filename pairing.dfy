/** The tag-pairing pass: one left-to-right scan over the escape-resolved
    stream that gives every delimiter a final Opening or Closing role, or
    demotes it to literal text. Two stacks carry the state, each a sequence
    with its top at the end: `tagsStack`, the confirmed openers, and
    `undefinedTags`, the delimiters whose role is still ambiguous. */
module Pairing {
  import opened Tokens

  function Top(s: seq<Token>): Token
    requires |s| > 0
  {
    s[|s| - 1]
  }

  function Pop(s: seq<Token>): seq<Token>
    requires |s| > 0
  {
    s[..|s| - 1]
  }

  /** One step of the pass keeps every token identity (span and family)
      exactly once: what the stacks hold afterwards plus what was emitted is
      what they held before plus the token read. */
  predicate Conserved(tags': seq<Token>, undefined': seq<Token>, emitted: seq<Token>,
                      tags: seq<Token>, undefined: seq<Token>, t: Token)
  {
    TokenBag(tags') + TokenBag(undefined') + TokenBag(emitted) == TokenBag(tags) + TokenBag(undefined) + multiset{IdentityOf(t)}
  }

  lemma PopBag(s: seq<Token>)
    requires |s| > 0
    ensures TokenBag(s) == TokenBag(Pop(s)) + multiset{IdentityOf(Top(s))}
  {
    assert s == Pop(s) + [Top(s)];
    TokenBagAppend(Pop(s), [Top(s)]);
    TokenBagSingle(Top(s));
  }

  lemma ConservedPopPending(tags: seq<Token>, undefined: seq<Token>, o: Token, c: Token, t: Token)
    requires |undefined| > 0 && IdentityOf(o) == IdentityOf(Top(undefined)) && IdentityOf(c) == IdentityOf(t)
    ensures Conserved(tags, Pop(undefined), [o, c], tags, undefined, t)
  {
    PopBag(undefined);
    TokenBagPair(o, c);
  }

  lemma ConservedPopOpener(tags: seq<Token>, undefined: seq<Token>, o: Token, c: Token, t: Token)
    requires |tags| > 0 && IdentityOf(o) == IdentityOf(Top(tags)) && IdentityOf(c) == IdentityOf(t)
    ensures Conserved(Pop(tags), undefined, [o, c], tags, undefined, t)
  {
    PopBag(tags);
    TokenBagPair(o, c);
  }

  lemma ConservedAlone(tags: seq<Token>, undefined: seq<Token>, c: Token, t: Token)
    requires IdentityOf(c) == IdentityOf(t)
    ensures Conserved(tags, undefined, [c], tags, undefined, t)
  {
    TokenBagSingle(c);
  }

  lemma ConservedText(tags: seq<Token>, undefined: seq<Token>, undefined': seq<Token>, emitted: seq<Token>, t: Token)
    requires TokenBag(undefined') + TokenBag(emitted) == TokenBag(undefined) + multiset{IdentityOf(t)}
    ensures Conserved(tags, undefined', emitted, tags, undefined, t)
  {
    calc {
      TokenBag(tags) + TokenBag(undefined') + TokenBag(emitted);
      TokenBag(tags) + (TokenBag(undefined') + TokenBag(emitted));
      TokenBag(tags) + (TokenBag(undefined) + multiset{IdentityOf(t)});
    }
  }

  lemma ConservedPushPending(tags: seq<Token>, undefined: seq<Token>, t: Token)
    ensures Conserved(tags, undefined + [t], [], tags, undefined, t)
  {
    TokenBagAppend(undefined, [t]);
    TokenBagSingle(t);
  }

  lemma ConservedPushOpener(tags: seq<Token>, undefined: seq<Token>, t: Token)
    ensures Conserved(tags + [t], undefined, [], tags, undefined, t)
  {
    TokenBagAppend(tags, [t]);
    TokenBagSingle(t);
  }

  /** The loop's bookkeeping: a conserving step keeps output plus stacks equal
      to the tokens read so far. */
  lemma ConservedStep(out: seq<Token>, emitted: seq<Token>, tags: seq<Token>, undefined: seq<Token>,
                      tags': seq<Token>, undefined': seq<Token>, read: seq<Token>, t: Token)
    requires TokenBag(out) + TokenBag(tags) + TokenBag(undefined) == TokenBag(read)
    requires Conserved(tags', undefined', emitted, tags, undefined, t)
    ensures TokenBag(out + emitted) + TokenBag(tags') + TokenBag(undefined') == TokenBag(read + [t])
  {
    TokenBagAppend(out, emitted);
    TokenBagAppend(read, [t]);
    TokenBagSingle(t);
    calc {
      TokenBag(out + emitted) + TokenBag(tags') + TokenBag(undefined');
      TokenBag(out) + (TokenBag(tags') + TokenBag(undefined') + TokenBag(emitted));
      TokenBag(out) + (TokenBag(tags) + TokenBag(undefined) + multiset{IdentityOf(t)});
      TokenBag(read) + multiset{IdentityOf(t)};
    }
  }

  /** Every entry of the opener stack is a delimiter the lexer marked Opening. */
  predicate AllOpeners(s: seq<Token>)
  {
    forall k :: 0 <= k < |s| ==> IsTag(s[k]) && s[k].role == Opening
  }

  /** Every entry of the pending stack is a delimiter whose role is still Undefined. */
  predicate AllPending(s: seq<Token>)
  {
    forall k :: 0 <= k < |s| ==> IsTag(s[k]) && s[k].role == Undefined
  }

  /** No token of `s` reaches past offset `bound`. */
  predicate EndBefore(s: seq<Token>, bound: int)
  {
    forall k :: 0 <= k < |s| ==> s[k].start + s[k].length <= bound
  }

  /** Every token span lies inside the source text. */
  predicate WithinText(tokens: seq<Token>, text: string)
  {
    forall k :: 0 <= k < |tokens| ==> tokens[k].start + tokens[k].length <= |text|
  }

  /** The lexer's order: every token starts at or after the end of every token before it. */
  predicate InOrder(tokens: seq<Token>)
  {
    forall j, k :: 0 <= j < k < |tokens| ==> tokens[j].start + tokens[j].length <= tokens[k].start
  }

  /** The characters a Text token denotes contain a space. (Outside the text
      the source's `Substring` throws; there the predicate is false, a case
      the pass's precondition excludes.) */
  predicate TextHasSpace(text: string, t: Token)
  {
    t.start + t.length <= |text| && ' ' in text[t.start..t.start + t.length]
  }

  /** The source characters strictly between the end of `opener` and the start
      of `t` contain a space. (False where the source's `Substring` would
      throw, a case the pass's precondition excludes.) */
  predicate GapHasSpace(text: string, opener: Token, t: Token)
  {
    && opener.start + opener.length <= t.start <= |text|
    && var gapStart := End(opener) + 1;
       ' ' in text[gapStart..gapStart + (t.start - End(opener) - 1)]
  }

  /** What emptying a stack into the output yields: every entry as Text, the
      most recently pushed first (the enumeration order of a stack). */
  function Flushed(s: seq<Token>): (r: seq<Token>)
    ensures |r| == |s| && AllText(r)
  {
    seq(|s|, k requires 0 <= k < |s| => SwitchToText(s[|s| - 1 - k]))
  }

  /** The state of the scan after some tokens, and what it has yielded. */
  datatype StepResult = StepResult(tags: seq<Token>, undefined: seq<Token>, emitted: seq<Token>)

  /** Reference definition of the step on a Text token (lines 45-54). */
  function TextStep(text: string, undefined: seq<Token>, token: Token): (seq<Token>, seq<Token>)
  {
    if TextHasSpace(text, token) then ([], Flushed(undefined) + [token])
    else (undefined, [token])
  }

  /** Reference definition of the step on a Closing tag (lines 136-159). */
  function ClosingStep(tags: seq<Token>, undefined: seq<Token>, token: Token): StepResult
  {
    if |tags| == 0 then
      if |undefined| > 0 && Top(undefined).tagType == token.tagType
      then StepResult(tags, Pop(undefined), [Top(undefined).(role := Opening), token])
      else StepResult(tags, undefined, [SwitchToText(token)])
    else if Top(tags).tagType == token.tagType then StepResult(Pop(tags), undefined, [Top(tags), token])
    else StepResult(Pop(tags), undefined, [SwitchToText(Top(tags)), SwitchToText(token)])
  }

  /** Reference definition of the step on an Undefined tag (lines 104-130). */
  function UndefinedStep(text: string, tags: seq<Token>, undefined: seq<Token>, token: Token): StepResult
  {
    if |undefined| == 0 then
      if |tags| > 0 && Top(tags).tagType == token.tagType && !GapHasSpace(text, Top(tags), token)
      then StepResult(Pop(tags), undefined, [Top(tags), token.(role := Closing)])
      else StepResult(tags, undefined + [token], [])
    else if Top(undefined).tagType == token.tagType
    then StepResult(tags, Pop(undefined), [Top(undefined).(role := Opening), token.(role := Closing)])
    else StepResult(tags, undefined + [token], [])
  }

  /** Reference definition of one step of the scan: a Text token, or a tag
      dispatched on its role, an Opening tag being pushed (line 60). */
  function Step(text: string, tags: seq<Token>, undefined: seq<Token>, token: Token): StepResult
  {
    if token.kind == Text then
      var (undefined', emitted) := TextStep(text, undefined, token);
      StepResult(tags, undefined', emitted)
    else match token.role
      case Opening => StepResult(tags + [token], undefined, [])
      case Closing => ClosingStep(tags, undefined, token)
      case Undefined => UndefinedStep(text, tags, undefined, token)
  }

  /** Reference definition of the scan over a token stream from the given stacks. */
  function Scan(text: string, tokens: seq<Token>, tags: seq<Token>, undefined: seq<Token>): StepResult
    decreases |tokens|
  {
    if tokens == [] then StepResult(tags, undefined, [])
    else
      var first := Step(text, tags, undefined, tokens[0]);
      var rest := Scan(text, tokens[1..], first.tags, first.undefined);
      StepResult(rest.tags, rest.undefined, first.emitted + rest.emitted)
  }

  /** Reference definition of the whole pass: the scan from empty stacks,
      then the pending stack flushed, then the opener stack (lines 79-80). */
  function Pass(text: string, tokens: seq<Token>): seq<Token>
  {
    var r := Scan(text, tokens, [], []);
    r.emitted + Flushed(r.undefined) + Flushed(r.tags)
  }

  /** The pass on an opener followed by an undefined delimiter of its family:
      they pair, the second closing the first, exactly when no space lies
      between them; otherwise both come out as Text at the end, the pending
      one first. */
  lemma PassOpenerThenUndefined(text: string, o: Token, u: Token)
    requires IsTag(o) && o.role == Opening && IsTag(u) && u.role == Undefined && o.tagType == u.tagType
    ensures Pass(text, [o, u]) ==
      if GapHasSpace(text, o, u) then [SwitchToText(u), SwitchToText(o)] else [o, u.(role := Closing)]
  {
    assert [o, u][1..] == [u] && [u][1..] == [];
    assert Step(text, [], [], o) == StepResult([o], [], []);
    var r := Step(text, [o], [], u);
    assert Top([o]) == o && Pop([o]) == [];
    assert Scan(text, [u], [o], []) == StepResult(r.tags, r.undefined, r.emitted + []);
    assert Scan(text, [o, u], [], []) == StepResult(r.tags, r.undefined, [] + (r.emitted + []));
    if GapHasSpace(text, o, u) {
      assert r == StepResult([o], [u], []);
      assert Flushed([u]) == [SwitchToText(u)] && Flushed([o]) == [SwitchToText(o)];
    } else {
      assert r == StepResult([], [], [o, u.(role := Closing)]);
      assert Flushed([]) == [];
    }
  }

  /** The pass on two undefined delimiters of one family around a Text run:
      a space in the run abandons the first as Text and leaves the second
      unpaired; without one the first opens and the second closes, emitted
      after the run. */
  lemma PassAroundText(text: string, u1: Token, t: Token, u2: Token)
    requires IsTag(u1) && u1.role == Undefined && IsTag(u2) && u2.role == Undefined
    requires u1.tagType == u2.tagType && t.kind == Text
    ensures Pass(text, [u1, t, u2]) ==
      if TextHasSpace(text, t) then [SwitchToText(u1), t, SwitchToText(u2)]
      else [t, u1.(role := Opening), u2.(role := Closing)]
  {
    assert [u1, t, u2][1..] == [t, u2] && [t, u2][1..] == [u2] && [u2][1..] == [];
    assert Step(text, [], [], u1) == StepResult([], [u1], []);
    var r1 := Step(text, [], [u1], t);
    var r2 := Step(text, [], r1.undefined, u2);
    assert Scan(text, [u2], [], r1.undefined) == StepResult(r2.tags, r2.undefined, r2.emitted + []);
    assert Scan(text, [t, u2], [], [u1]) == StepResult(r2.tags, r2.undefined, r1.emitted + (r2.emitted + []));
    assert Scan(text, [u1, t, u2], [], []) == StepResult(r2.tags, r2.undefined, [] + (r1.emitted + (r2.emitted + [])));
    assert Flushed([]) == [];
    if TextHasSpace(text, t) {
      assert Flushed([u1]) == [SwitchToText(u1)] && Flushed([u2]) == [SwitchToText(u2)];
      assert r1 == StepResult([], [], [SwitchToText(u1), t]);
      assert r2 == StepResult([], [u2], []);
    } else {
      assert r1 == StepResult([], [u1], [t]);
      assert Top([u1]) == u1 && Pop([u1]) == [];
      assert r2 == StepResult([], [], [u1.(role := Opening), u2.(role := Closing)]);
    }
  }

  /** At the end of the stream the pending delimiters are flushed before the
      confirmed openers, and each stack from its top down. */
  lemma PassFlushOrder(text: string, o1: Token, o2: Token, u: Token)
    requires IsTag(o1) && o1.role == Opening && IsTag(o2) && o2.role == Opening
    requires IsTag(u) && u.role == Undefined && o2.tagType != u.tagType
    ensures Pass(text, [o1, o2, u]) == [SwitchToText(u), SwitchToText(o2), SwitchToText(o1)]
  {
    assert [o1, o2, u][1..] == [o2, u] && [o2, u][1..] == [u] && [u][1..] == [];
    assert Step(text, [], [], o1) == StepResult([o1], [], []);
    assert Step(text, [o1], [], o2) == StepResult([o1] + [o2], [], []);
    assert [o1] + [o2] == [o1, o2] && Top([o1, o2]) == o2;
    assert Step(text, [o1, o2], [], u) == StepResult([o1, o2], [u], []);
    assert Scan(text, [u], [o1, o2], []) == StepResult([o1, o2], [u], [] + []);
    assert Scan(text, [o2, u], [o1], []) == StepResult([o1, o2], [u], [] + ([] + []));
    assert Scan(text, [o1, o2, u], [], []) == StepResult([o1, o2], [u], [] + ([] + ([] + [])));
    assert Flushed([u]) == [SwitchToText(u)];
    assert Flushed([o1, o2]) == [SwitchToText(o2), SwitchToText(o1)];
  }

  /** Flushing a stack emits exactly the identities it held. */
  lemma {:induction false} FlushedBag(s: seq<Token>)
    ensures TokenBag(Flushed(s)) == TokenBag(s)
    decreases |s|
  {
    if s != [] {
      FlushedBag(Pop(s));
      assert Flushed(s) == [SwitchToText(Top(s))] + Flushed(Pop(s));
      TokenBagAppend([SwitchToText(Top(s))], Flushed(Pop(s)));
      TokenBagSingle(SwitchToText(Top(s)));
      PopBag(s);
    }
  }

  /** Emits every entry of a stack as Text, top first, and then clears it. */
  method ReturnAsText(stack: seq<Token>) returns (flushed: seq<Token>, emptied: seq<Token>)
    ensures flushed == Flushed(stack) && emptied == []
    ensures AllText(flushed) && WellPaired(flushed)
    ensures TokenBag(flushed) == TokenBag(stack)
  {
    flushed := [];
    var k := 0;
    while k < |stack|
      invariant 0 <= k <= |stack|
      invariant |flushed| == k
      invariant forall j :: 0 <= j < k ==> flushed[j] == SwitchToText(stack[|stack| - 1 - j])
    {
      flushed := flushed + [SwitchToText(stack[|stack| - 1 - k])];
      k := k + 1;
    }
    emptied := [];
    AllTextWellPaired(flushed);
    FlushedBag(stack);
  }

  /** A Text token: when the characters it denotes contain a space, every
      pending delimiter is first abandoned as Text; the token itself is always
      emitted. */
  method HandleTextToken(text: string, undefinedTags: seq<Token>, token: Token)
    returns (undefinedTags': seq<Token>, emitted: seq<Token>)
    requires token.start + token.length <= |text|
    ensures (undefinedTags', emitted) == TextStep(text, undefinedTags, token)
    ensures TextHasSpace(text, token) ==> undefinedTags' == [] && emitted == Flushed(undefinedTags) + [token]
    ensures !TextHasSpace(text, token) ==> undefinedTags' == undefinedTags && emitted == [token]
    ensures TokenBag(undefinedTags') + TokenBag(emitted) == TokenBag(undefinedTags) + multiset{IdentityOf(token)}
    ensures token.kind == Text ==> WellPaired(emitted)
  {
    TokenBagSingle(token);
    var textValue := text[token.start..token.start + token.length];
    if ' ' in textValue {
      var flushed;
      flushed, undefinedTags' := ReturnAsText(undefinedTags);
      emitted := flushed + [token];
      TokenBagAppend(flushed, [token]);
      if token.kind == Text {
        assert AllText(emitted);
        AllTextWellPaired(emitted);
      }
    } else {
      undefinedTags' := undefinedTags;
      emitted := [token];
      if token.kind == Text {
        assert AllText(emitted);
        AllTextWellPaired(emitted);
      }
    }
  }

  /** A delimiter the lexer marked Closing. Without a confirmed opener it pairs
      with a pending delimiter of its family on top of the pending stack, or
      else becomes Text alone. With an opener it pops it; the two are emitted
      in that order, and both become Text when their families differ. */
  method HandleClosingTag(tagsStack: seq<Token>, undefinedTags: seq<Token>, token: Token)
    returns (tagsStack': seq<Token>, undefinedTags': seq<Token>, emitted: seq<Token>)
    ensures StepResult(tagsStack', undefinedTags', emitted) == ClosingStep(tagsStack, undefinedTags, token)
    ensures |tagsStack| == 0 && |undefinedTags| > 0 && Top(undefinedTags).tagType == token.tagType ==>
      && tagsStack' == tagsStack && undefinedTags' == Pop(undefinedTags)
      && emitted == [Top(undefinedTags).(role := Opening), token]
    ensures |tagsStack| == 0 && !(|undefinedTags| > 0 && Top(undefinedTags).tagType == token.tagType) ==>
      tagsStack' == tagsStack && undefinedTags' == undefinedTags && emitted == [SwitchToText(token)]
    ensures |tagsStack| > 0 ==>
      && tagsStack' == Pop(tagsStack) && undefinedTags' == undefinedTags
      && emitted == if Top(tagsStack).tagType == token.tagType then [Top(tagsStack), token]
                    else [SwitchToText(Top(tagsStack)), SwitchToText(token)]
    ensures Conserved(tagsStack', undefinedTags', emitted, tagsStack, undefinedTags, token)
    ensures AllOpeners(tagsStack) && AllPending(undefinedTags) && IsTag(token) && token.role == Closing ==>
      AllOpeners(tagsStack') && AllPending(undefinedTags') && WellPaired(emitted)
  {
    if |tagsStack| <= 0 {
      if |undefinedTags| > 0 && Top(undefinedTags).tagType == token.tagType {
        var opener := Top(undefinedTags).(role := Opening);
        undefinedTags' := Pop(undefinedTags);
        tagsStack' := tagsStack;
        emitted := [opener, token];
        ConservedPopPending(tagsStack, undefinedTags, opener, token, token);
        if AllPending(undefinedTags) && IsTag(token) && token.role == Closing {
          WellPairedPair(opener, token);
        }
        return;
      }
      tagsStack', undefinedTags' := tagsStack, undefinedTags;
      emitted := [SwitchToText(token)];
      ConservedAlone(tagsStack, undefinedTags, SwitchToText(token), token);
      assert AllText(emitted);
      AllTextWellPaired(emitted);
      return;
    }
    var previous := Top(tagsStack);
    tagsStack' := Pop(tagsStack);
    undefinedTags' := undefinedTags;
    var closing := token;
    if previous.tagType != token.tagType {
      previous := SwitchToText(previous);
      closing := SwitchToText(token);
      emitted := [previous, closing];
      assert AllText(emitted);
      AllTextWellPaired(emitted);
    } else {
      emitted := [previous, closing];
      if AllOpeners(tagsStack) && IsTag(token) && token.role == Closing {
        WellPairedPair(previous, closing);
      }
    }
    ConservedPopOpener(tagsStack, undefinedTags, previous, closing, token);
  }

  /** A delimiter whose role is Undefined. With nothing pending it closes a
      same-family opener on top of the opener stack when no space separates
      them in the source, and is otherwise pushed as pending. Behind a pending
      delimiter of its family the two resolve each other, the older one
      opening; behind one of another family it is pushed on top of it. */
  method HandleUndefinedTag(text: string, undefinedTags: seq<Token>, tagsStack: seq<Token>, token: Token)
    returns (undefinedTags': seq<Token>, tagsStack': seq<Token>, emitted: seq<Token>)
    requires |undefinedTags| == 0 && |tagsStack| > 0 && Top(tagsStack).tagType == token.tagType ==>
      Top(tagsStack).start + Top(tagsStack).length <= token.start <= |text|
    ensures StepResult(tagsStack', undefinedTags', emitted) == UndefinedStep(text, tagsStack, undefinedTags, token)
    ensures |undefinedTags| == 0 && |tagsStack| > 0 && Top(tagsStack).tagType == token.tagType ==>
      if GapHasSpace(text, Top(tagsStack), token)
      then undefinedTags' == [token] && tagsStack' == tagsStack && emitted == []
      else (undefinedTags' == [] && tagsStack' == Pop(tagsStack)
        && emitted == [Top(tagsStack), token.(role := Closing)])
    ensures |undefinedTags| == 0 && !(|tagsStack| > 0 && Top(tagsStack).tagType == token.tagType) ==>
      undefinedTags' == [token] && tagsStack' == tagsStack && emitted == []
    ensures |undefinedTags| > 0 && Top(undefinedTags).tagType == token.tagType ==>
      && undefinedTags' == Pop(undefinedTags) && tagsStack' == tagsStack
      && emitted == [Top(undefinedTags).(role := Opening), token.(role := Closing)]
    ensures |undefinedTags| > 0 && Top(undefinedTags).tagType != token.tagType ==>
      undefinedTags' == undefinedTags + [token] && tagsStack' == tagsStack && emitted == []
    ensures Conserved(tagsStack', undefinedTags', emitted, tagsStack, undefinedTags, token)
    ensures AllOpeners(tagsStack) && AllPending(undefinedTags) && IsTag(token) && token.role == Undefined ==>
      AllOpeners(tagsStack') && AllPending(undefinedTags') && WellPaired(emitted)
  {
    tagsStack' := tagsStack;
    if |undefinedTags| == 0 {
      if |tagsStack| > 0 && Top(tagsStack).tagType == token.tagType {
        var opener := Top(tagsStack);
        var gapStart := End(opener) + 1;
        var textBetween := text[gapStart..gapStart + (token.start - End(opener) - 1)];
        if ' ' !in textBetween {
          var closing := token.(role := Closing);
          tagsStack' := Pop(tagsStack);
          undefinedTags' := undefinedTags;
          emitted := [opener, closing];
          ConservedPopOpener(tagsStack, undefinedTags, opener, closing, token);
          if AllOpeners(tagsStack) && IsTag(token) {
            WellPairedPair(opener, closing);
          }
          return;
        }
      }
      undefinedTags' := undefinedTags + [token];
      emitted := [];
      ConservedPushPending(tagsStack, undefinedTags, token);
    } else if Top(undefinedTags).tagType == token.tagType {
      var opener := Top(undefinedTags).(role := Opening);
      var closing := token.(role := Closing);
      undefinedTags' := Pop(undefinedTags);
      emitted := [opener, closing];
      ConservedPopPending(tagsStack, undefinedTags, opener, closing, token);
      if AllPending(undefinedTags) && IsTag(token) {
        WellPairedPair(opener, closing);
      }
    } else {
      undefinedTags' := undefinedTags + [token];
      emitted := [];
      ConservedPushPending(tagsStack, undefinedTags, token);
    }
  }

  /** Where the scan of an already resolved stream stands after `i` tokens:
      nothing is pending, and either the last token read is an opener still
      waiting alone on the stack or everything read has been emitted as is. */
  predicate ResolvedProgress(tokens: seq<Token>, i: nat, tags: seq<Token>, undefined: seq<Token>, out: seq<Token>)
    requires i <= |tokens|
  {
    undefined == []
    && if i > 0 && IsTag(tokens[i - 1]) && tokens[i - 1].role == Opening
       then tags == [tokens[i - 1]] && out == tokens[..i - 1]
       else tags == [] && out == tokens[..i]
  }

  /** How one step behaves on an already resolved stream, where nothing is
      ever pending and at most one opener waits: a Text token passes
      through, an opener is pushed, and a closer of its family pops it and
      both are emitted as they are. */
  predicate KeepsResolved(tags: seq<Token>, undefined: seq<Token>, token: Token, r: StepResult)
  {
    && (|tags| == 0 && |undefined| == 0 && token.kind == Text ==>
          |r.tags| == 0 && |r.undefined| == 0 && r.emitted == [token])
    && (|tags| == 0 && |undefined| == 0 && IsTag(token) && token.role == Opening ==>
          r.tags == [token] && |r.undefined| == 0 && r.emitted == [])
    && (|tags| == 1 && |undefined| == 0 && IsTag(token) && token.role == Closing
        && tags[0].tagType == token.tagType ==>
          |r.tags| == 0 && |r.undefined| == 0 && r.emitted == [tags[0], token])
  }

  /** Every step keeps each token identity exactly once. */
  lemma StepConserves(text: string, tags: seq<Token>, undefined: seq<Token>, token: Token)
    ensures var r := Step(text, tags, undefined, token);
      Conserved(r.tags, r.undefined, r.emitted, tags, undefined, token)
  {
    var r := Step(text, tags, undefined, token);
    if token.kind == Text {
      TokenBagSingle(token);
      if TextHasSpace(text, token) {
        FlushedBag(undefined);
        TokenBagAppend(Flushed(undefined), [token]);
      }
      ConservedText(tags, undefined, r.undefined, r.emitted, token);
      return;
    }
    match token.role
    case Opening =>
      ConservedPushOpener(tags, undefined, token);
    case Closing =>
      if |tags| == 0 {
        if |undefined| > 0 && Top(undefined).tagType == token.tagType {
          ConservedPopPending(tags, undefined, Top(undefined).(role := Opening), token, token);
        } else {
          ConservedAlone(tags, undefined, SwitchToText(token), token);
        }
      } else if Top(tags).tagType == token.tagType {
        ConservedPopOpener(tags, undefined, Top(tags), token, token);
      } else {
        ConservedPopOpener(tags, undefined, SwitchToText(Top(tags)), SwitchToText(token), token);
      }
    case Undefined =>
      if |undefined| == 0 && |tags| > 0 && Top(tags).tagType == token.tagType && !GapHasSpace(text, Top(tags), token) {
        ConservedPopOpener(tags, undefined, Top(tags), token.(role := Closing), token);
      } else if |undefined| > 0 && Top(undefined).tagType == token.tagType {
        ConservedPopPending(tags, undefined, Top(undefined).(role := Opening), token.(role := Closing), token);
      } else {
        ConservedPushPending(tags, undefined, token);
      }
  }

  /** Every step keeps only Opening tags on the opener stack and only
      Undefined tags on the pending stack, and what it emits is resolved. */
  lemma StepKeepsStacks(text: string, tags: seq<Token>, undefined: seq<Token>, token: Token)
    requires AllOpeners(tags) && AllPending(undefined)
    ensures var r := Step(text, tags, undefined, token);
      AllOpeners(r.tags) && AllPending(r.undefined) && WellPaired(r.emitted)
  {
    var r := Step(text, tags, undefined, token);
    if token.kind == Text {
      assert AllText(r.emitted);
      AllTextWellPaired(r.emitted);
      return;
    }
    match token.role
    case Opening =>
    case Closing =>
      if |tags| == 0 && |undefined| > 0 && Top(undefined).tagType == token.tagType {
        WellPairedPair(Top(undefined).(role := Opening), token);
      } else if |tags| > 0 && Top(tags).tagType == token.tagType {
        WellPairedPair(Top(tags), token);
      } else {
        assert AllText(r.emitted);
        AllTextWellPaired(r.emitted);
      }
    case Undefined =>
      if |undefined| == 0 && |tags| > 0 && Top(tags).tagType == token.tagType && !GapHasSpace(text, Top(tags), token) {
        WellPairedPair(Top(tags), token.(role := Closing));
      } else if |undefined| > 0 && Top(undefined).tagType == token.tagType {
        WellPairedPair(Top(undefined).(role := Opening), token.(role := Closing));
      }
  }

  /** Every step leaves only openers that end before the token's end, and
      emits a Text token it reads. */
  lemma StepBounds(text: string, tags: seq<Token>, undefined: seq<Token>, token: Token)
    requires EndBefore(tags, token.start)
    ensures var r := Step(text, tags, undefined, token);
      EndBefore(r.tags, token.start + token.length) && (token.kind == Text ==> token in r.emitted)
  {
    var r := Step(text, tags, undefined, token);
    if token.kind == Text {
      assert r.emitted[|r.emitted| - 1] == token;
    }
  }

  /** On an already resolved stream a step does what `KeepsResolved` says. */
  lemma StepKeepsResolved(text: string, tags: seq<Token>, undefined: seq<Token>, token: Token)
    ensures KeepsResolved(tags, undefined, token, Step(text, tags, undefined, token))
  {
    assert Flushed([]) == [];
  }

  lemma ResolvedStep(text: string, tokens: seq<Token>, i: nat, tags: seq<Token>, undefined: seq<Token>, out: seq<Token>)
    requires i < |tokens|
    ensures var r := Step(text, tags, undefined, tokens[i]);
      WellPaired(tokens) && ResolvedProgress(tokens, i, tags, undefined, out) ==>
      ResolvedProgress(tokens, i + 1, r.tags, r.undefined, out + r.emitted)
  {
    if !(WellPaired(tokens) && ResolvedProgress(tokens, i, tags, undefined, out)) {
      return;
    }
    StepKeepsResolved(text, tags, undefined, tokens[i]);
    assert tokens[..i + 1] == tokens[..i] + [tokens[i]];
    assert ResolvedAt(tokens, i);
    if i > 0 {
      assert ResolvedAt(tokens, i - 1);
      assert tokens[..i] == tokens[..i - 1] + [tokens[i - 1]];
    }
  }

  /** A resolved stream never ends on an opener, so its scan ends with both stacks empty. */
  lemma ResolvedEnd(tokens: seq<Token>, tags: seq<Token>, undefined: seq<Token>, out: seq<Token>)
    requires WellPaired(tokens) && ResolvedProgress(tokens, |tokens|, tags, undefined, out)
    ensures tags == [] && undefined == [] && out == tokens
  {
    var n := |tokens|;
    if n > 0 {
      assert ResolvedAt(tokens, n - 1);
    }
    assert tokens[..n] == tokens;
  }

  /** What the scan keeps true after reading `i` tokens: the stacks hold what
      they should, the output is resolved, every identity read is either emitted or
      on a stack exactly once, the confirmed openers all end before the next
      token, and every Text token read has been emitted. */
  predicate ScanInvariant(tokens: seq<Token>, i: nat, tags: seq<Token>, undefined: seq<Token>, out: seq<Token>)
    requires i <= |tokens|
  {
    && AllOpeners(tags) && AllPending(undefined) && WellPaired(out)
    && TokenBag(out) + TokenBag(tags) + TokenBag(undefined) == TokenBag(tokens[..i])
    && (i < |tokens| ==> EndBefore(tags, tokens[i].start))
    && forall k :: 0 <= k < i && tokens[k].kind == Text ==> tokens[k] in out
  }

  lemma ScanStep(text: string, tokens: seq<Token>, i: nat, tags: seq<Token>, undefined: seq<Token>, out: seq<Token>)
    requires InOrder(tokens) && i < |tokens| && ScanInvariant(tokens, i, tags, undefined, out)
    ensures var r := Step(text, tags, undefined, tokens[i]);
      ScanInvariant(tokens, i + 1, r.tags, r.undefined, out + r.emitted)
  {
    var r := Step(text, tags, undefined, tokens[i]);
    StepConserves(text, tags, undefined, tokens[i]);
    StepKeepsStacks(text, tags, undefined, tokens[i]);
    StepBounds(text, tags, undefined, tokens[i]);
    WellPairedAppend(out, r.emitted);
    ConservedStep(out, r.emitted, tags, undefined, r.tags, r.undefined, tokens[..i], tokens[i]);
    assert tokens[..i + 1] == tokens[..i] + [tokens[i]];
    if i + 1 < |tokens| {
      assert tokens[i].start + tokens[i].length <= tokens[i + 1].start;
    }
  }

  /** The scan's result: the output followed by both stacks flushed keeps every identity read. */
  lemma ScanEnd(tokens: seq<Token>, tags: seq<Token>, undefined: seq<Token>, out: seq<Token>,
                pending: seq<Token>, openers: seq<Token>)
    requires TokenBag(out) + TokenBag(tags) + TokenBag(undefined) == TokenBag(tokens)
    requires TokenBag(pending) == TokenBag(undefined) && TokenBag(openers) == TokenBag(tags)
    ensures |out + pending + openers| == |tokens| && TokenBag(out + pending + openers) == TokenBag(tokens)
  {
    TokenBagAppend(out, pending);
    TokenBagAppend(out + pending, openers);
    assert |TokenBag(out + pending + openers)| == |tokens|;
  }

  /** The scan so far agrees with the reference: scanning the rest of the
      stream from the current stacks, behind the current output, gives the
      reference scan `whole` of the entire stream. */
  predicate Follows(text: string, tokens: seq<Token>, whole: StepResult, i: nat,
                    tags: seq<Token>, undefined: seq<Token>, out: seq<Token>)
    requires i <= |tokens|
  {
    var rest := Scan(text, tokens[i..], tags, undefined);
    whole == StepResult(rest.tags, rest.undefined, out + rest.emitted)
  }

  lemma FollowStep(text: string, tokens: seq<Token>, whole: StepResult, i: nat,
                   tags: seq<Token>, undefined: seq<Token>, out: seq<Token>)
    requires i < |tokens| && Follows(text, tokens, whole, i, tags, undefined, out)
    ensures var r := Step(text, tags, undefined, tokens[i]);
      Follows(text, tokens, whole, i + 1, r.tags, r.undefined, out + r.emitted)
  {
    var r := Step(text, tags, undefined, tokens[i]);
    assert tokens[i..][0] == tokens[i];
    assert tokens[i..][1..] == tokens[i + 1..];
    var rest := Scan(text, tokens[i + 1..], r.tags, r.undefined);
    assert Scan(text, tokens[i..], tags, undefined) == StepResult(rest.tags, rest.undefined, r.emitted + rest.emitted);
    assert out + (r.emitted + rest.emitted) == (out + r.emitted) + rest.emitted;
  }

  /** The loop invariant of the pass: the scan invariant, agreement with the
      reference scan `whole`, and on an already resolved stream the exact
      position the scan has reached. */
  predicate Scanned(text: string, tokens: seq<Token>, whole: StepResult, i: nat,
                    tags: seq<Token>, undefined: seq<Token>, out: seq<Token>)
    requires i <= |tokens|
  {
    && ScanInvariant(tokens, i, tags, undefined, out)
    && Follows(text, tokens, whole, i, tags, undefined, out)
    && (WellPaired(tokens) ==> ResolvedProgress(tokens, i, tags, undefined, out))
  }

  /** Before the first token: empty stacks and output agree with the reference scan. */
  lemma ScanStart(text: string, tokens: seq<Token>)
    ensures Scanned(text, tokens, Scan(text, tokens, [], []), 0, [], [], [])
  {
    assert tokens[0..] == tokens;
    assert tokens[..0] == [];
    assert [] + Scan(text, tokens, [], []).emitted == Scan(text, tokens, [], []).emitted;
  }

  lemma ScanAdvance(text: string, tokens: seq<Token>, whole: StepResult, i: nat,
                    tags: seq<Token>, undefined: seq<Token>, out: seq<Token>)
    requires InOrder(tokens) && i < |tokens| && Scanned(text, tokens, whole, i, tags, undefined, out)
    ensures var r := Step(text, tags, undefined, tokens[i]);
      Scanned(text, tokens, whole, i + 1, r.tags, r.undefined, out + r.emitted)
  {
    ScanStep(text, tokens, i, tags, undefined, out);
    FollowStep(text, tokens, whole, i, tags, undefined, out);
    ResolvedStep(text, tokens, i, tags, undefined, out);
  }

  /** The pass's promises, once the scan is over and both stacks are flushed behind the output. */
  lemma ScanFinish(text: string, tokens: seq<Token>, tags: seq<Token>, undefined: seq<Token>, out: seq<Token>,
                   pending: seq<Token>, openers: seq<Token>)
    requires Scanned(text, tokens, Scan(text, tokens, [], []), |tokens|, tags, undefined, out)
    requires pending == Flushed(undefined) && openers == Flushed(tags)
    ensures out + pending + openers == Pass(text, tokens)
    ensures |out + pending + openers| == |tokens| && TokenBag(out + pending + openers) == TokenBag(tokens)
    ensures WellPaired(out + pending + openers)
    ensures forall k :: 0 <= k < |tokens| && tokens[k].kind == Text ==> tokens[k] in out + pending + openers
    ensures WellPaired(tokens) ==> out + pending + openers == tokens
  {
    assert tokens[..|tokens|] == tokens;
    assert tokens[|tokens|..] == [];
    assert out + [] == out;
    FlushedBag(undefined);
    FlushedBag(tags);
    ScanEnd(tokens, tags, undefined, out, pending, openers);
    AllTextWellPaired(pending);
    AllTextWellPaired(openers);
    WellPairedAppend(out, pending);
    WellPairedAppend(out + pending, openers);
    if WellPaired(tokens) {
      ResolvedEnd(tokens, tags, undefined, out);
      assert pending == [] && openers == [];
      assert out + pending + openers == out;
    }
  }

  /** The body of the scan: dispatches one token on its kind and role, and
      does exactly what the reference step does. */
  method ProcessToken(text: string, tagsStack: seq<Token>, undefinedTags: seq<Token>, token: Token)
    returns (tagsStack': seq<Token>, undefinedTags': seq<Token>, emitted: seq<Token>)
    requires token.start + token.length <= |text|
    requires EndBefore(tagsStack, token.start)
    ensures StepResult(tagsStack', undefinedTags', emitted) == Step(text, tagsStack, undefinedTags, token)
  {
    if token.kind == Text {
      undefinedTags', emitted := HandleTextToken(text, undefinedTags, token);
      tagsStack' := tagsStack;
      return;
    }
    match token.role
    case Opening =>
      tagsStack', undefinedTags', emitted := tagsStack + [token], undefinedTags, [];
    case Closing =>
      tagsStack', undefinedTags', emitted := HandleClosingTag(tagsStack, undefinedTags, token);
    case Undefined =>
      undefinedTags', tagsStack', emitted := HandleUndefinedTag(text, undefinedTags, tagsStack, token);
  }

  /** The whole pass. It computes exactly the reference `Pass`. Every input
      token is emitted exactly once (possibly as Text), every delimiter left
      has a final role inside an adjacent same-family pair, Text tokens pass
      unchanged, and a stream that is already resolved comes out as it went in. */
  method RemoveUnpaired(tokens: seq<Token>, text: string) returns (out: seq<Token>)
    requires WithinText(tokens, text) && InOrder(tokens)
    ensures out == Pass(text, tokens)
    ensures |out| == |tokens| && TokenBag(out) == TokenBag(tokens)
    ensures WellPaired(out)
    ensures forall k :: 0 <= k < |tokens| && tokens[k].kind == Text ==> tokens[k] in out
    ensures WellPaired(tokens) ==> out == tokens
  {
    var tagsStack: seq<Token> := [];
    var undefinedTags: seq<Token> := [];
    out := [];
    ghost var whole := Scan(text, tokens, [], []);
    ScanStart(text, tokens);
    var i := 0;
    while i < |tokens|
      invariant 0 <= i <= |tokens|
      invariant Scanned(text, tokens, whole, i, tagsStack, undefinedTags, out)
    {
      var token := tokens[i];
      var tags', undefined', emitted := ProcessToken(text, tagsStack, undefinedTags, token);
      ScanAdvance(text, tokens, whole, i, tagsStack, undefinedTags, out);
      out := out + emitted;
      tagsStack, undefinedTags := tags', undefined';
      i := i + 1;
    }
    ghost var scannedTags, scannedUndefined := tagsStack, undefinedTags;
    var pending, openers;
    pending, undefinedTags := ReturnAsText(undefinedTags);
    openers, tagsStack := ReturnAsText(tagsStack);
    ScanFinish(text, tokens, scannedTags, scannedUndefined, out, pending, openers);
    out := out + pending + openers;
  }
}
