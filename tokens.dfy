/** The token data model shared by the post-processing passes: a typed span
    over the source text, with a delimiter family and a pairing role for
    delimiter tokens, and the identity bookkeeping used to state conservation. */
module Tokens {

  /** The kind of a token as the lexer classified it. */
  datatype TokenType = Text | Escape | Tag

  /** The pairing status of a delimiter token. */
  datatype TagRole = Opening | Closing | Undefined

  /** Identifies a delimiter family (emphasis, strong, ...); two tags pair only within one family. */
  type TagType = nat

  /** A token covers `length` characters of the source text from offset `start`.
      `tagType` and `role` are meaningful only for tokens that are not Text. */
  datatype Token = Token(kind: TokenType, start: nat, length: nat, tagType: TagType, role: TagRole)

  /** Index of the last character a token covers (the character just before
      `start` when the token is empty). */
  function End(t: Token): int
  {
    t.start + t.length - 1
  }

  /** A fresh literal-text token over the given span; its tag fields are never read. */
  function TextToken(start: nat, length: nat): (r: Token)
    ensures r.kind == Text && r.start == start && r.length == length
  {
    Token(Text, start, length, 0, Undefined)
  }

  /** Reclassifies a token as literal text; its span does not change. */
  function SwitchToText(t: Token): (r: Token)
    ensures r.kind == Text && r.start == t.start && r.length == t.length
    ensures r.tagType == t.tagType && r.role == t.role
  {
    t.(kind := Text)
  }

  /** A token that still takes part in pairing: anything that is not literal text. */
  predicate IsTag(t: Token)
  {
    t.kind != Text
  }

  predicate AllText(s: seq<Token>)
  {
    forall k :: 0 <= k < |s| ==> s[k].kind == Text
  }

  /** What no pass may change about a token: its span and its family. A pass
      may only reclassify a token, changing its kind or its role. */
  type Identity = (nat, nat, TagType)

  function IdentityOf(t: Token): Identity
  {
    (t.start, t.length, t.tagType)
  }

  /** The identities of a token sequence, in stream order. */
  function Identities(s: seq<Token>): (r: seq<Identity>)
    ensures |r| == |s|
  {
    seq(|s|, k requires 0 <= k < |s| => IdentityOf(s[k]))
  }

  /** The tokens of a sequence up to reclassification, counted with
      multiplicity and in no order. */
  function TokenBag(s: seq<Token>): multiset<Identity>
  {
    multiset(Identities(s))
  }

  lemma TokenBagAppend(a: seq<Token>, b: seq<Token>)
    ensures TokenBag(a + b) == TokenBag(a) + TokenBag(b)
  {
    assert Identities(a + b) == Identities(a) + Identities(b);
  }

  lemma TokenBagSingle(t: Token)
    ensures TokenBag([t]) == multiset{IdentityOf(t)}
  {
    assert Identities([t]) == [IdentityOf(t)];
  }

  lemma TokenBagPair(a: Token, b: Token)
    ensures TokenBag([a, b]) == multiset{IdentityOf(a), IdentityOf(b)}
  {
    assert Identities([a, b]) == [IdentityOf(a), IdentityOf(b)];
  }

  /** Tokens `s[i]` and `s[i + 1]` form a resolved pair: an opening and a
      closing delimiter of one family, next to each other in the stream. */
  predicate PairAt(s: seq<Token>, i: int)
  {
    0 <= i && i + 1 < |s|
    && IsTag(s[i]) && s[i].role == Opening
    && IsTag(s[i + 1]) && s[i + 1].role == Closing
    && s[i].tagType == s[i + 1].tagType
  }

  /** The token at `i`, when it is a delimiter, has a final role and sits in a
      resolved pair: an Opening immediately followed by its Closing, or a
      Closing immediately following its Opening. */
  predicate ResolvedAt(s: seq<Token>, i: int)
    requires 0 <= i < |s|
  {
    IsTag(s[i]) ==> (s[i].role == Opening && PairAt(s, i)) || (s[i].role == Closing && PairAt(s, i - 1))
  }

  /** Every delimiter left in the stream is resolved; in particular none is Undefined. */
  predicate WellPaired(s: seq<Token>)
  {
    forall i :: 0 <= i < |s| ==> ResolvedAt(s, i)
  }

  lemma AllTextWellPaired(s: seq<Token>)
    requires AllText(s)
    ensures WellPaired(s)
  {
  }

  /** An opening and a closing delimiter of one family, side by side, are resolved. */
  lemma WellPairedPair(o: Token, c: Token)
    requires IsTag(o) && o.role == Opening && IsTag(c) && c.role == Closing && o.tagType == c.tagType
    ensures WellPaired([o, c])
  {
    assert ResolvedAt([o, c], 0) && ResolvedAt([o, c], 1);
  }

  /** Resolved streams can be concatenated: a resolved stream never ends in an
      Opening nor starts with a Closing, so no pair is broken at the seam. */
  lemma WellPairedAppend(a: seq<Token>, b: seq<Token>)
    requires WellPaired(a) && WellPaired(b)
    ensures WellPaired(a + b)
  {
    var c := a + b;
    forall i | 0 <= i < |c|
      ensures ResolvedAt(c, i)
    {
      if i < |a| {
        assert ResolvedAt(a, i);
        if 0 < i {
          assert c[i - 1] == a[i - 1];
        }
        if i + 1 < |a| {
          assert c[i + 1] == a[i + 1];
        }
      } else {
        var j := i - |a|;
        assert ResolvedAt(b, j);
        if 0 < j {
          assert c[i - 1] == b[j - 1];
        }
        if j + 1 < |b| {
          assert c[i + 1] == b[j + 1];
        }
      }
    }
  }
}
