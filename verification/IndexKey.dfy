/** The key of the idempotency index: token id, a colon, idempotency key. */
module IndexKey {

  predicate AlphaNum(c: char) {
    'A' <= c <= 'Z' || 'a' <= c <= 'z' || '0' <= c <= '9'
  }

  predicate TokenChar(c: char) {
    AlphaNum(c) || c == '_' || c == '.' || c == ':' || c == '-'
  }

  predicate ControlChar(c: char) {
    TokenChar(c) || c == '@' || c == '/'
  }

  /** Token ids the configuration accepts. */
  predicate ValidTokenId(t: string) {
    1 <= |t| <= 80 && AlphaNum(t[0]) && forall i :: 0 <= i < |t| ==> TokenChar(t[i])
  }

  /** Non-empty lock and idempotency keys a request may carry. */
  predicate ValidControlKey(k: string) {
    1 <= |k| <= 201 && AlphaNum(k[0]) && forall i :: 0 <= i < |k| ==> ControlChar(k[i])
  }

  function Join(tokenId: string, key: string): string {
    tokenId + ":" + key
  }

  /** `longer` is `shorter`, a colon, and more text that begins with a letter or digit. */
  predicate Extends(longer: string, shorter: string) {
    && |shorter| + 2 <= |longer|
    && longer[..|shorter|] == shorter
    && longer[|shorter|] == ':'
    && AlphaNum(longer[|shorter| + 1])
  }

  ghost predicate Collide(t: string, u: string) {
    exists k, l :: ValidControlKey(k) && ValidControlKey(l) && Join(t, k) == Join(u, l)
  }

  lemma SameLengthInjective(t: string, k: string, u: string, l: string)
    requires Join(t, k) == Join(u, l) && |t| == |u|
    ensures t == u && k == l
  {
    var j := Join(t, k);
    assert t == j[..|t|] && u == Join(u, l)[..|t|];
    assert k == j[|t| + 1..] && l == Join(u, l)[|t| + 1..];
  }

  lemma LongerExtends(t: string, k: string, u: string, l: string)
    requires Join(t, k) == Join(u, l) && |t| < |u|
    requires ValidControlKey(k) && ValidTokenId(u)
    ensures Extends(u, t)
  {
    var j := Join(t, k);
    assert j == Join(u, l);
    assert t == j[..|t|] == u[..|t|];
    assert u[|t|] == j[|t|] == ':';
    assert k == j[|t| + 1..];
    assert k[0] == j[|t| + 1] && j[|u|] == ':';
    assert |u| != |t| + 1;
    assert u[|t| + 1] == j[|t| + 1];
  }

  lemma ExtensionCollides(u: string, t: string)
    requires ValidTokenId(u) && Extends(u, t)
    ensures Collide(t, u)
  {
    var rest := u[|t| + 1..];
    var k := rest + ":" + "a";
    assert u == t + ":" + rest;
    assert Join(t, k) == Join(u, "a");
    assert forall i :: 0 <= i < |rest| ==> rest[i] == u[|t| + 1 + i];
    assert ValidControlKey(k) && ValidControlKey("a");
  }

  /** Two distinct token ids can share an index key exactly when one extends the other. */
  lemma CollisionIffExtension(t: string, u: string)
    requires ValidTokenId(t) && ValidTokenId(u) && t != u
    ensures Collide(t, u) <==> Extends(t, u) || Extends(u, t)
  {
    if Collide(t, u) {
      var k, l :| ValidControlKey(k) && ValidControlKey(l) && Join(t, k) == Join(u, l);
      if |t| == |u| {
        SameLengthInjective(t, k, u, l);
      } else if |t| < |u| {
        LongerExtends(t, k, u, l);
      } else {
        LongerExtends(u, l, t, k);
      }
    }
    if Extends(u, t) {
      ExtensionCollides(u, t);
    }
    if Extends(t, u) {
      ExtensionCollides(t, u);
      var k, l :| ValidControlKey(k) && ValidControlKey(l) && Join(u, k) == Join(t, l);
      assert Join(t, l) == Join(u, k);
    }
  }

  /** No configured token id extends another. */
  ghost predicate Separated(tokens: set<string>) {
    && (forall t :: t in tokens ==> ValidTokenId(t))
    && (forall t, u :: t in tokens && u in tokens ==> !Extends(t, u))
  }

  /** Over separated tokens the index key determines both halves. */
  lemma JoinInjective(tokens: set<string>, t: string, k: string, u: string, l: string)
    requires Separated(tokens) && t in tokens && u in tokens
    requires ValidControlKey(k) && ValidControlKey(l)
    requires Join(t, k) == Join(u, l)
    ensures t == u && k == l
  {
    if t != u {
      assert Collide(t, u);
      CollisionIffExtension(t, u);
      assert false;
    }
    SameLengthInjective(t, k, u, l);
  }
}
