/** The regular expressions of the daemon's validation, and the checks that stand for them. */
module Patterns {
  import opened Types
  import opened IndexKey
  import opened Normalize
  import JobStore

  /** A bracket expression, as ranges, with how often it may be repeated. */
  datatype Piece = Piece(ranges: seq<(char, char)>, least: nat, most: Option<nat>)

  predicate Listed(ranges: seq<(char, char)>, c: char) {
    exists i :: 0 <= i < |ranges| && ranges[i].0 <= c <= ranges[i].1
  }

  /** The whole of `s` matches the pieces one after the other. */
  ghost predicate Matches(pieces: seq<Piece>, s: string)
    decreases |pieces|
  {
    if pieces == [] then s == ""
    else exists n :: 0 <= n <= |s| && Repeats(pieces[0], s[..n]) && Matches(pieces[1..], s[n..])
  }

  predicate Repeats(p: Piece, s: string) {
    && p.least <= |s| && (p.most.Some? ==> |s| <= p.most.value)
    && forall i :: 0 <= i < |s| ==> Listed(p.ranges, s[i])
  }

  const UPPER := ('A', 'Z')
  const LOWER := ('a', 'z')
  const DIGIT := ('0', '9')

  function One(c: char): (char, char) { (c, c) }

  const ENV_KEY: seq<Piece> := [
    Piece([UPPER, One('_')], 1, Some(1)),
    Piece([UPPER, DIGIT, One('_')], 0, None)]

  const JOB_ID: seq<Piece> := [Piece([UPPER, LOWER, DIGIT, One('.'), One('_'), One('-')], 8, Some(80))]

  const TOKEN_ID: seq<Piece> := [
    Piece([UPPER, LOWER, DIGIT], 1, Some(1)),
    Piece([UPPER, LOWER, DIGIT, One('_'), One('.'), One(':'), One('-')], 0, Some(79))]

  const CONTROL_KEY: seq<Piece> := [
    Piece([UPPER, LOWER, DIGIT], 1, Some(1)),
    Piece([UPPER, LOWER, DIGIT, One('_'), One('.'), One('@'), One(':'), One('/'), One('-')], 0, Some(200))]

  lemma MatchesOne(p: Piece, s: string)
    ensures Matches([p], s) <==> Repeats(p, s)
  {
    assert [p][1..] == [];
    if Matches([p], s) {
      var n :| 0 <= n <= |s| && Repeats(p, s[..n]) && Matches([p][1..], s[n..]);
      assert s[..n] == s;
    }
    if Repeats(p, s) {
      assert s[..|s|] == s && s[|s|..] == "";
      assert Repeats([p][0], s[..|s|]) && Matches([p][1..], s[|s|..]);
    }
  }

  /** One character of the first class, then the second class. */
  lemma MatchesTwo(p: Piece, q: Piece, s: string)
    requires p.least == 1 && p.most == Some(1)
    ensures Matches([p, q], s) <==> s != "" && Listed(p.ranges, s[0]) && Repeats(q, s[1..])
  {
    assert [p, q][1..] == [q];
    MatchesOne(q, if s == "" then s else s[1..]);
    hide Listed;
    if Matches([p, q], s) {
      var n :| 0 <= n <= |s| && Repeats(p, s[..n]) && Matches([p, q][1..], s[n..]);
      assert n == 1 && s[..1][0] == s[0];
    }
    if s != "" && Listed(p.ranges, s[0]) && Repeats(q, s[1..]) {
      assert Repeats([p, q][0], s[..1]) && Matches([p, q][1..], s[1..]);
    }
  }

  lemma JobIds(s: string)
    ensures JobStore.ValidJobId(s) <==> Matches(JOB_ID, s)
  {
    MatchesOne(JOB_ID[0], s);
    forall c ensures JobStore.IdChar(c) <==> Listed(JOB_ID[0].ranges, c) {
      var r := JOB_ID[0].ranges;
      assert r[0].0 == 'A' && r[1].0 == 'a' && r[2].0 == '0' && r[3].0 == '.' && r[4].0 == '_' && r[5].0 == '-';
    }
  }

  lemma EnvKeys(s: string)
    ensures ValidEnvKey(s) <==> Matches(ENV_KEY, s)
  {
    MatchesTwo(ENV_KEY[0], ENV_KEY[1], s);
    forall c ensures Listed(ENV_KEY[0].ranges, c) <==> 'A' <= c <= 'Z' || c == '_' {
      var r := ENV_KEY[0].ranges;
      assert r[0].0 == 'A' && r[1].0 == '_';
    }
    forall c ensures Listed(ENV_KEY[1].ranges, c) <==> 'A' <= c <= 'Z' || '0' <= c <= '9' || c == '_' {
      var r := ENV_KEY[1].ranges;
      assert r[0].0 == 'A' && r[1].0 == '0' && r[2].0 == '_';
    }
    hide Listed;
    assert s != "" ==> forall i :: 0 < i < |s| ==> s[1..][i - 1] == s[i];
  }

  lemma HeadIsAlphaNum(c: char)
    ensures Listed([UPPER, LOWER, DIGIT], c) <==> AlphaNum(c)
  {
    var r := [UPPER, LOWER, DIGIT];
    assert r[0].0 == 'A' && r[1].0 == 'a' && r[2].0 == '0';
  }

  lemma TokenIds(s: string)
    ensures ValidTokenId(s) <==> Matches(TOKEN_ID, s)
  {
    MatchesTwo(TOKEN_ID[0], TOKEN_ID[1], s);
    forall c ensures Listed(TOKEN_ID[1].ranges, c) <==> TokenChar(c) {
      var r := TOKEN_ID[1].ranges;
      assert r[0].0 == 'A' && r[1].0 == 'a' && r[2].0 == '0' && r[3].0 == '_' && r[4].0 == '.' && r[5].0 == ':' && r[6].0 == '-';
    }
    if s != "" {
      HeadIsAlphaNum(s[0]);
      assert forall i :: 0 < i < |s| ==> s[1..][i - 1] == s[i];
    }
    hide Listed;
  }

  lemma ControlKeys(s: string)
    ensures ValidControlKey(s) <==> Matches(CONTROL_KEY, s)
  {
    MatchesTwo(CONTROL_KEY[0], CONTROL_KEY[1], s);
    forall c ensures Listed(CONTROL_KEY[1].ranges, c) <==> ControlChar(c) {
      var r := CONTROL_KEY[1].ranges;
      assert r[0].0 == 'A' && r[1].0 == 'a' && r[2].0 == '0' && r[3].0 == '_' && r[4].0 == '.';
      assert r[5].0 == '@' && r[6].0 == ':' && r[7].0 == '/' && r[8].0 == '-';
    }
    if s != "" {
      HeadIsAlphaNum(s[0]);
      assert forall i :: 0 < i < |s| ==> s[1..][i - 1] == s[i];
    }
    hide Listed;
  }

  /** The characters with the property White_Space, which trimming takes off a command. */
  lemma Spaces(c: char)
    ensures IsSpace(c) <==> c in {
      '\t', '\n', '\U{B}', '\U{C}', '\r', ' ', '\U{85}', '\U{A0}', '\U{1680}',
      '\U{2000}', '\U{2001}', '\U{2002}', '\U{2003}', '\U{2004}', '\U{2005}', '\U{2006}', '\U{2007}', '\U{2008}', '\U{2009}', '\U{200A}',
      '\U{2028}', '\U{2029}', '\U{202F}', '\U{205F}', '\U{3000}'}
  {
    if IsSpace(c) {
      var n := c as int;
      assert n as char == c;
    }
  }
}
