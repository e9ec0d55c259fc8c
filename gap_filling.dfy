/** Filling the stretches of source text between delimiter tags with Text
    tokens, appended to a caller's token list. */
module GapFilling {
  import opened Tokens

  /** The Text token, if any, covering the characters after `first` and before
      offset `secondStart`: nothing when that stretch is empty or when the two
      overlap. Only the start of the second tag is ever read. */
  function TextBetween(first: Token, secondStart: int): (r: seq<Token>)
    ensures |r| <= 1
    ensures |r| == 1 <==> End(first) + 1 < secondStart
    ensures |r| == 1 ==>
      r[0].kind == Text && r[0].length > 0
      && r[0].start == End(first) + 1 && End(r[0]) + 1 == secondStart
  {
    var textStart := first.start + first.length;
    var textLength := secondStart - textStart;
    if textLength > 0 then [TextToken(textStart, textLength)] else []
  }

  /** The zero-length tag at offset 0 that stands before the first tag of the text. */
  function StartSentinel(): (r: Token)
    ensures r.start == 0 && r.length == 0
  {
    Token(Tag, 0, 0, 0, Undefined)
  }

  /** Consecutive tokens meet: `s[k]` starts right where `s[k - 1]` stops. */
  predicate MeetsAt(s: seq<Token>, k: int)
    requires 0 < k < |s|
  {
    s[k - 1].start + s[k - 1].length == s[k].start
  }

  /** The spans of `s` follow one another with no gap and no overlap. */
  predicate Contiguous(s: seq<Token>)
  {
    forall k :: 0 < k < |s| ==> MeetsAt(s, k)
  }

  /** Between two tags in source order, the gap text leaves nothing uncovered:
      the first tag, the text and the second tag follow one another exactly. */
  lemma TextBetweenFills(first: Token, second: Token)
    requires first.start + first.length <= second.start
    ensures Contiguous([first] + TextBetween(first, second.start) + [second])
  {
    var s := [first] + TextBetween(first, second.start) + [second];
    if |TextBetween(first, second.start)| == 1 {
      assert MeetsAt(s, 1) && MeetsAt(s, 2);
    } else {
      assert MeetsAt(s, 1);
    }
  }

  /** The text before a tag, when there is any, starts at the beginning of the
      source and reaches the tag. */
  lemma TextBeforeFromStart(token: Token)
    ensures TextBetween(StartSentinel(), token.start) == if token.start > 0 then [TextToken(0, token.start)] else []
  {
    var r := TextBetween(StartSentinel(), token.start);
    if token.start > 0 {
      assert |r| == 1 && r[0] == TextToken(0, token.start);
    }
  }

  /** The text after a tag, when there is any, runs from the tag to the last
      character `end` inclusive. */
  lemma TextAfterToEnd(token: Token, end: int)
    ensures |TextBetween(token, end + 1)| == 1 <==> End(token) < end
    ensures |TextBetween(token, end + 1)| == 1 ==>
      TextBetween(token, end + 1)[0].start == End(token) + 1 && End(TextBetween(token, end + 1)[0]) == end
  {
  }

  /** A caller's token list, which the gap-filling operations append to. */
  class TokenList {
    var items: seq<Token>

    constructor (items: seq<Token>)
      ensures this.items == items
    {
      this.items := items;
    }

    /** Appends the gap text that ends right before offset `secondStart`. */
    method AppendGap(first: Token, secondStart: int)
      modifies this
      ensures items == old(items) + TextBetween(first, secondStart)
    {
      var textStart := first.start + first.length;
      var textLength := secondStart - textStart;
      if textLength > 0 {
        items := items + [TextToken(textStart, textLength)];
      }
    }

    /** Appends the text between two tags, if any. */
    method AddTextBetween(firstTag: Token, secondTag: Token)
      modifies this
      ensures items == old(items) + TextBetween(firstTag, secondTag.start)
    {
      AppendGap(firstTag, secondTag.start);
    }

    /** Appends the text between the start of the source and a tag, if any. */
    method AddTextBefore(token: Token)
      modifies this
      ensures items == old(items) + TextBetween(StartSentinel(), token.start)
    {
      AddTextBetween(StartSentinel(), token);
    }

    /** Appends the text between a tag and the last character `end`, if any. */
    method AddTextAfter(token: Token, end: int)
      modifies this
      ensures items == old(items) + TextBetween(token, end + 1)
    {
      AppendGap(token, end + 1);
    }
  }
}
