# Token post-processing passes of a Markdown converter

This project models `cs/Markdown/Tokens/TokensExtensions.cs` of a small Markdown-to-HTML converter and proves properties of the model. The file holds the passes that run on the lexer's token stream before rendering:

- **Escape resolution** (`RemoveEscaping`). One left-to-right scan with an `escapeNext` flag. An Escape token followed by a non-Text token is dropped, and that next token becomes Text. An Escape followed by a Text token becomes Text itself.
- **Tag pairing** (`RemoveUnpaired` with `HandleUndefinedTag`, `HandleClosingTag` and `ReturnAsText`). It uses two stacks:
  - `tagsStack` holds the confirmed openers.
  - `undefinedTags` holds the delimiters whose role is still ambiguous.

  The scan gives every delimiter a final Opening or Closing role, or demotes it to Text. It consults the source text to see whether a Text run or a gap between two tags contains a space.
- **Gap filling** (`AddTextBetween`, `AddTextBefore`, `AddTextAfter`). These append to a caller's list a Text token covering the characters between two tags.

Modules:

- `Tokens` (`tokens.dfy`): the token datatype and the identity bag, a multiset of `(start, length, tagType)` triples that states that no token is dropped or duplicated and that no pass changes a token's span or family. It also defines `WellPaired`: every delimiter left in a stream has a final role and sits next to its partner of the same family.
- `Escaping` (`escaping.dfy`): the escape scan as a method with a loop. It is proved equal to `Unescape`, a separate recursive reference definition. Lemmas about `Unescape` state what the pass promises.
- `Pairing` (`pairing.dfy`): the pairing scan. Each handler is a method that takes the two stacks and returns them updated, together with the tokens it yields. A stack is a `seq<Token>` with its top at the end. The pass is proved equal to `Pass`, a recursive reference definition built from one reference `Step` per token; lemmas about `Step` and `Pass` state what the pass promises.
- `GapFilling` (`gap_filling.dfy`): the pure `TextBetween` function with lemmas about it. A `TokenList` class stands for the caller's `IList<Token>`; its methods append to its `items` field.

Assumptions the model makes explicit:

- The `Token` class is not part of this model. `End(t)` is taken to be `t.start + t.length - 1`, because line 108 treats `End + 1` as the first character of the gap.
- `SwitchToText` changes the kind to Text and nothing else.
- `TagType` is an opaque family number (`nat`).

Behaviour of the code worth noting:

- **Stack flush order.** A C# `Stack<T>` enumerates from the top, so the flush emits the most recently pushed token first. `Pairing.Flushed` does the same, and `PassFlushOrder` shows it on a whole pass: pending delimiters first, then openers, each stack from its top down.
- **Trailing Escape.** Line 26 reads `tokens[i + 1]` without a bounds check. An Escape token in last position that no earlier marker consumed reaches that read past the end. The model adds no precondition for this case. `RemoveEscaping` returns the tokens yielded before that read, flagged `overran`. `UnescapeOverran` proves that the flag is set only when the last token is an Escape. `[Escape, Escape]` does not overrun: the first Escape consumes the second.

## Model

| member | source | states |
|---|---|---|
| Tokens.SwitchToText | cs/Markdown/Tokens/TokensExtensions.cs:19 | reclassifying a token makes it Text and keeps its span and its tag fields |
| Tokens.TextToken | cs/Markdown/Tokens/TokensExtensions.cs:88 | a token built as Text has the given start and length |
| Escaping.RemoveEscaping | cs/Markdown/Tokens/TokensExtensions.cs:11-37 | the flagged scan yields exactly what the recursive reference walk `Unescape` yields; no Escape token is yielded; an overrun happens only when the last token is an Escape; a completed scan embeds its output in the input (see `UnescapeEmbeds`); the output is shorter than the input by exactly the number of markers dropped |
| Escaping.NoEscapeEmitted | cs/Markdown/Tokens/TokensExtensions.cs:16-35 | for every input, no token the walk yields is of kind Escape |
| Escaping.UnescapeOverran | cs/Markdown/Tokens/TokensExtensions.cs:24-26 | the walk overruns only if the stream is non-empty and ends in an Escape token |
| Escaping.UnescapeEmbeds | cs/Markdown/Tokens/TokensExtensions.cs:11-37 | a completed walk keeps input order, leaves out only Escape tokens, and yields every other token unchanged or switched to Text |
| Escaping.EmbedsLength | cs/Markdown/Tokens/TokensExtensions.cs:26-29 | an embedded output is no longer than the input and shorter by at most the number of Escape tokens |
| Escaping.UnescapeLength | cs/Markdown/Tokens/TokensExtensions.cs:16-35 | the walk drops exactly its markers: each Escape before a non-Text token, and an unconsumed Escape in last position; every other token is yielded, so the output length is the input length minus that count, which never exceeds the number of Escape tokens |
| Escaping.UnescapeWithoutEscapes | cs/Markdown/Tokens/TokensExtensions.cs:24-35 | a stream without Escape tokens passes through unchanged and completes |
| Escaping.UnescapeIdempotent | cs/Markdown/Tokens/TokensExtensions.cs:11-37 | running the pass again on a completed output changes nothing |
| Escaping.EscapedTag | cs/Markdown/Tokens/TokensExtensions.cs:16-30 | an Escape before a tag yields that tag alone, as Text |
| Escaping.EscapedEscapeAtEnd | cs/Markdown/Tokens/TokensExtensions.cs:16-29 | an escaped Escape in last position yields it as Text, with no overrun |
| Pairing.FlushedBag | cs/Markdown/Tokens/TokensExtensions.cs:163-172 | flushing a stack emits exactly the token identities it held |
| Pairing.ReturnAsText | cs/Markdown/Tokens/TokensExtensions.cs:163-172 | the flush emits every entry as Text, top of the stack first, with the same identities, and leaves the stack empty; its output is resolved |
| Pairing.HandleTextToken | cs/Markdown/Tokens/TokensExtensions.cs:45-54 | agrees with the reference `TextStep`: a Text run containing a space first flushes every pending delimiter as Text and empties the pending stack; the run itself is always emitted last; identities are conserved |
| Pairing.HandleClosingTag | cs/Markdown/Tokens/TokensExtensions.cs:133-160 | agrees with the reference `ClosingStep`: with no opener, a same-family pending top is promoted to Opening and emitted before the closer, otherwise the closer alone becomes Text and the pending stack is unchanged; with an opener it is popped and both are emitted opener first, both as Text when their families differ; identities conserved and stack invariants kept |
| Pairing.HandleUndefinedTag | cs/Markdown/Tokens/TokensExtensions.cs:101-131 | agrees with the reference `UndefinedStep`: with nothing pending and a same-family opener on top, it closes the opener, popped and emitted first, exactly when the gap between them has no space, and is otherwise pushed as pending; behind a same-family pending top the older becomes Opening and the newer Closing, emitted in that order; behind a pending top of another family it is pushed; identities conserved and stack invariants kept |
| Pairing.ProcessToken | cs/Markdown/Tokens/TokensExtensions.cs:43-76 | one token of the scan agrees with the reference `Step`: a Text token takes the Text step, an Opening tag is pushed and emits nothing, a Closing or Undefined tag takes its handler's step |
| Pairing.StepConserves | cs/Markdown/Tokens/TokensExtensions.cs:43-76 | every step keeps each token identity exactly once, across the two stacks and what it emits |
| Pairing.StepKeepsStacks | cs/Markdown/Tokens/TokensExtensions.cs:43-76 | every step keeps only Opening tags on the opener stack and only Undefined tags on the pending stack, and what it emits is resolved |
| Pairing.StepBounds | cs/Markdown/Tokens/TokensExtensions.cs:45-61 | after a step every opener ends before the end of the token read, and a Text token read is emitted |
| Pairing.StepKeepsResolved | cs/Markdown/Tokens/TokensExtensions.cs:45-66 | with nothing pending and no opener, a Text token passes alone and an opener is pushed alone; a lone opener is popped by a same-family closer and both are emitted as they are |
| Pairing.RemoveUnpaired | cs/Markdown/Tokens/TokensExtensions.cs:39-81 | the pass computes exactly the reference `Pass`: the scan of `Step`s from empty stacks, then the pending stack flushed, then the opener stack; every input token is emitted exactly once (output length and identity bag equal the input's); the output is resolved, so no delimiter is Undefined and every Opening is immediately followed by a same-family Closing and vice versa; every Text input token is in the output; an already resolved stream comes out unchanged |
| Pairing.PassOpenerThenUndefined | cs/Markdown/Tokens/TokensExtensions.cs:57-80 | an opener followed by an undefined delimiter of its family: the second closes the first exactly when no space lies between them, and otherwise both are flushed as Text, the pending one first |
| Pairing.PassAroundText | cs/Markdown/Tokens/TokensExtensions.cs:43-80 | two undefined delimiters of one family around a Text run: with a space in the run, the first is flushed as Text before the run and the second ends unpaired as Text; without one, the first opens and the second closes, emitted after the run |
| Pairing.PassFlushOrder | cs/Markdown/Tokens/TokensExtensions.cs:79-80 | at the end of the stream the pending delimiters come out before the openers, each stack from its top down |
| GapFilling.TextBetween | cs/Markdown/Tokens/TokensExtensions.cs:83-89 | at most one token; there is one exactly when the second tag starts after the character following the first tag's end; it is a non-empty Text token starting right after the first tag and ending right before the second |
| GapFilling.StartSentinel | cs/Markdown/Tokens/TokensExtensions.cs:93 | the sentinel tag before the text starts at 0 and has length 0 |
| GapFilling.TextBetweenFills | cs/Markdown/Tokens/TokensExtensions.cs:83-89 | between two tags in source order, the first tag, the gap text and the second tag follow one another with no gap and no overlap |
| GapFilling.TextBeforeFromStart | cs/Markdown/Tokens/TokensExtensions.cs:91-94 | the text before a tag is the span from offset 0 to the tag, present exactly when the tag does not start at 0 |
| GapFilling.TextAfterToEnd | cs/Markdown/Tokens/TokensExtensions.cs:96-99 | the text after a tag exists exactly when the tag ends before `end`, and then runs from right after the tag to `end` inclusive |
| GapFilling.TokenList.AppendGap | cs/Markdown/Tokens/TokensExtensions.cs:85-88 | the list becomes its old contents followed by the gap text; existing elements are unchanged |
| GapFilling.TokenList.AddTextBetween | cs/Markdown/Tokens/TokensExtensions.cs:83-89 | appends `TextBetween` of the two tags and nothing else |
| GapFilling.TokenList.AddTextBefore | cs/Markdown/Tokens/TokensExtensions.cs:91-94 | behaves as `AddTextBetween` from the zero-length sentinel at offset 0 |
| GapFilling.TokenList.AddTextAfter | cs/Markdown/Tokens/TokensExtensions.cs:96-99 | behaves as `AddTextBetween` up to a sentinel starting at `end + 1` |

## Left out

- Lazy evaluation: each `yield return` generator is modelled as eager construction of a sequence. An incomplete enumeration by a consumer is not modelled. Neither is the point at which the out-of-range read on line 26 would be observed; it is modelled as the `overran` flag.
- Mutable tokens and aliasing: tokens are values. The in-place `SwitchToText` and `TagRole =` updates (lines 19, 32, 112, 124-125, 140, 146, 154-155, 167) are modelled as producing a changed copy. Their effect on the caller's list, and on other holders of the same `Token` object, is not captured.
- The `default` branch of the role switch (lines 73-75) is unreachable in the model, because a role is one of exactly three values.
- `Pairing.RemoveUnpaired`: requires that every token span lies within the text and that tokens appear in increasing, non-overlapping positions. Without these, `Substring` on lines 47 and 108 throws; exceptions are not modelled.
- `Pairing.HandleUndefinedTag`: requires, only in the branch that reads the gap, that the opener ends at or before the token and that the token starts within the text. These are the `Substring` bounds of line 108.
- `Pairing.RemoveUnpaired`: no claim is made that the output is in source order. It is not: an opener is emitted only when its closer arrives.
- `GapFilling.TokenList.AddTextAfter`: the sentinel tag at `end + 1` is not built as a token, because a model token cannot start at a negative offset. Only its start is read by `AddTextBetween`, and that start is passed directly as an integer.
- The lexer, the renderer, and the `Token`, `TagToken` and `TagType` classes are not part of this model. The token is a minimal datatype; integer widths are unbounded, since no offset arithmetic here comes near 32-bit overflow for texts that fit in a string.
- Space means the character `' '` only, as in lines 48 and 110; no other whitespace is considered.
