/** The text of a refresh token (build_refresh_token and parse_refresh_token of core/security.py).
    The MAC is any text without a dot, as base64url is. */
module RefreshTokens {
  import opened Collections
  import opened Text

  const PREFIX := "rt1"
  const SESSION_ID_LENGTH := 32
  const MAX_LENGTH := 200

  datatype Parts = Parts(session: string, generation: nat, mac: string)

  predicate NoDot(s: string) {
    Lacks(s, '.')
  }

  function Build(p: Parts): string {
    PREFIX + "." + p.session + "." + Show(p.generation) + "." + p.mac
  }

  function Parse(s: string): Option<Parts> {
    if s == "" || |s| > MAX_LENGTH then None
    else
      var parts := Split(s, '.');
      if |parts| != 4 || parts[0] != PREFIX then None
      else if |parts[1]| != SESSION_ID_LENGTH || parts[2] == "" || !AllDigits(parts[2]) then None
      else Some(Parts(parts[1], Read(parts[2]), parts[3]))
  }

  lemma JoinFour(a: string, b: string, c: string, d: string)
    ensures Join([a, b, c, d], '.') == a + "." + b + "." + c + "." + d
  {
    assert [a, b, c, d][1..] == [b, c, d] && [b, c, d][1..] == [c, d] && [c, d][1..] == [d];
    assert Join([c, d], '.') == c + "." + d;
    assert Join([b, c, d], '.') == b + "." + (c + "." + d);
  }

  lemma DigitsNoDot(s: string)
    requires AllDigits(s)
    ensures NoDot(s)
  {
  }

  /** A token built for a session comes back in its parts, as long as it is not too long. */
  lemma BuiltIsParsed(p: Parts)
    requires |p.session| == SESSION_ID_LENGTH && NoDot(p.session) && NoDot(p.mac)
    ensures Parse(Build(p)) == if |Build(p)| <= MAX_LENGTH then Some(p) else None
  {
    var parts := [PREFIX, p.session, Show(p.generation), p.mac];
    JoinFour(PREFIX, p.session, Show(p.generation), p.mac);
    assert Build(p) == Join(parts, '.');
    DigitsNoDot(Show(p.generation));
    SplitJoin(parts, '.');
    ReadShow(p.generation);
  }

  /** Nothing else is accepted: four parts with the prefix, a session id of 32 characters and a
      decimal generation. */
  lemma ParsedExactly(s: string, p: Parts)
    ensures Parse(s) == Some(p) <==>
      (exists g: string :: 0 < |g| && AllDigits(g) && Read(g) == p.generation && |s| <= MAX_LENGTH
         && |p.session| == SESSION_ID_LENGTH && NoDot(p.session) && NoDot(p.mac)
         && s == PREFIX + "." + p.session + "." + g + "." + p.mac)
  {
    if Parse(s) == Some(p) {
      JoinSplit(s, '.');
      var parts := Split(s, '.');
      assert parts == [parts[0], parts[1], parts[2], parts[3]];
      JoinFour(parts[0], parts[1], parts[2], parts[3]);
      assert AllDigits(parts[2]) && s == PREFIX + "." + p.session + "." + parts[2] + "." + p.mac;
    }
    forall g: string | 0 < |g| && AllDigits(g) && Read(g) == p.generation && |s| <= MAX_LENGTH
         && |p.session| == SESSION_ID_LENGTH && NoDot(p.session) && NoDot(p.mac)
         && s == PREFIX + "." + p.session + "." + g + "." + p.mac
      ensures Parse(s) == Some(p)
    {
      JoinFour(PREFIX, p.session, g, p.mac);
      DigitsNoDot(g);
      SplitJoin([PREFIX, p.session, g, p.mac], '.');
    }
  }

  /** Different sessions or generations never share a token. */
  lemma TokensDiffer(p: Parts, q: Parts)
    requires |p.session| == SESSION_ID_LENGTH == |q.session| && NoDot(p.session) && NoDot(q.session)
    requires NoDot(p.mac) && NoDot(q.mac) && Build(p) == Build(q)
    ensures p == q
  {
    var left := [PREFIX, p.session, Show(p.generation), p.mac];
    var right := [PREFIX, q.session, Show(q.generation), q.mac];
    JoinFour(PREFIX, p.session, Show(p.generation), p.mac);
    JoinFour(PREFIX, q.session, Show(q.generation), q.mac);
    DigitsNoDot(Show(p.generation));
    DigitsNoDot(Show(q.generation));
    SplitJoin(left, '.');
    SplitJoin(right, '.');
    assert left == right;
    ReadShow(p.generation);
    ReadShow(q.generation);
  }
}
