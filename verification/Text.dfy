/** White space as the kernel and Go's library strip it. */
module Text {

  /** The four characters intake strips; with `unicode`, every character Go's `strings.TrimSpace` strips. */
  predicate White(c: char, unicode: bool) {
    || c == ' ' || c == '\t' || c == '\n' || c == '\r'
    || (unicode && (|| c == '\U{0B}' || c == '\U{0C}' || c == '\U{85}' || c == '\U{A0}' || c == '\U{1680}'
                    || '\U{2000}' <= c <= '\U{200A}' || c == '\U{2028}' || c == '\U{2029}' || c == '\U{202F}'
                    || c == '\U{205F}' || c == '\U{3000}'))
  }

  function StripLeft(s: string, unicode: bool): (r: string) {
    if s != [] && White(s[0], unicode) then StripLeft(s[1..], unicode) else s
  }

  function StripRight(s: string, unicode: bool): (r: string) {
    if s != [] && White(s[|s| - 1], unicode) then StripRight(s[..|s| - 1], unicode) else s
  }

  function Strip(s: string, unicode: bool): string { StripRight(StripLeft(s, unicode), unicode) }

  predicate AllWhite(s: string, unicode: bool) { forall i :: 0 <= i < |s| ==> White(s[i], unicode) }

  predicate Tight(s: string, unicode: bool) {
    s != [] ==> !White(s[0], unicode) && !White(s[|s| - 1], unicode)
  }

  lemma {:induction false} StripLeftIs(s: string, unicode: bool, k: nat)
    requires k <= |s| && AllWhite(s[..k], unicode) && (k < |s| ==> !White(s[k], unicode))
    ensures StripLeft(s, unicode) == s[k..]
    decreases k
  {
    if k > 0 {
      assert s[..k][0] == s[0];
      assert s[1..][..k - 1] == s[..k][1..];
      StripLeftIs(s[1..], unicode, k - 1);
    }
  }

  lemma {:induction false} StripRightIs(s: string, unicode: bool, k: nat)
    requires k <= |s| && AllWhite(s[k..], unicode) && (k > 0 ==> !White(s[k - 1], unicode))
    ensures StripRight(s, unicode) == s[..k]
    decreases |s| - k
  {
    if k < |s| {
      assert s[k..][|s| - k - 1] == s[|s| - 1];
      assert s[..|s| - 1][k..] == s[k..][..|s| - 1 - k];
      StripRightIs(s[..|s| - 1], unicode, k);
      assert s[..|s| - 1][..k] == s[..k];
    }
  }

  /** A tight string is its own strip, whatever white space surrounds it. */
  lemma StripUnwraps(pre: string, s: string, post: string, unicode: bool)
    requires AllWhite(pre, unicode) && AllWhite(post, unicode) && Tight(s, unicode)
    ensures Strip(pre + s + post, unicode) == s
  {
    var whole := pre + s + post;
    if s == [] {
      assert forall i :: 0 <= i < |whole| ==> whole[i] == if i < |pre| then pre[i] else post[i - |pre|];
      StripLeftIs(whole, unicode, |whole|);
    } else {
      assert whole[..|pre|] == pre;
      assert whole[|pre|] == s[0];
      StripLeftIs(whole, unicode, |pre|);
      var rest := whole[|pre|..];
      assert rest == s + post;
      assert rest[|s|..] == post;
      assert rest[..|s|] == s;
      StripRightIs(rest, unicode, |s|);
    }
  }

  lemma {:induction false} NoneLeft(s: string, unicode: bool)
    ensures StripRight(s, unicode) == "" <==> AllWhite(s, unicode)
  {
    hide White;
    if s != [] {
      var front, last := s[..|s| - 1], s[|s| - 1];
      NoneLeft(front, unicode);
      assert s == front + [last];
    }
  }

  lemma {:induction false} LeftKeepsBlack(s: string, unicode: bool)
    ensures AllWhite(StripLeft(s, unicode), unicode) <==> AllWhite(s, unicode)
  {
    hide White;
    if s != [] && White(s[0], unicode) {
      LeftKeepsBlack(s[1..], unicode);
      assert s == [s[0]] + s[1..];
    }
  }

  /** Nothing is left of a string exactly when all of it is white. */
  lemma BlankExactly(s: string, unicode: bool)
    ensures Strip(s, unicode) == "" <==> AllWhite(s, unicode)
  {
    LeftKeepsBlack(s, unicode);
    NoneLeft(StripLeft(s, unicode), unicode);
  }
}
