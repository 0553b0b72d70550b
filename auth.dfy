/** Role names the middleware compares against and rewrites. */
module Roles {
  const Medico: string := "MEDICO"
  const Administrador: string := "ADMINISTRADOR"

  /** The two spellings the middleware rewrites. */
  const DoctorAlias: string := "DOCTOR"
  const AdminAlias: string := "ADMIN"
}

/** The request guards of `authMiddleware`: bearer-token extraction,
    role normalisation with the DOCTOR/ADMIN aliases, and the role check of
    `requireRole`.

    The profile request to the authentication service is a parameter: the
    reply it gives for a token, or `None` when the request fails. */
module Auth {
  import opened Wrappers
  import opened Text
  import opened Roles

  datatype User = User(id: int, role: string)

  datatype AuthError =
    | TokenRequired    // 401 'Token requerido'
    | InvalidToken     // 401 'Token inválido o expirado'
    | Unauthenticated  // 401 'Usuario no autenticado'
    | Forbidden        // 403 'No tienes permisos para esta acción'

  function HttpStatus(e: AuthError): int {
    if e == Forbidden then 403 else 401
  }

  // ---------------------------------------------------------------------
  // Token extraction

  /** `authorization?.split(' ')[1]`, kept when non-empty. */
  function ExtractToken(header: Option<string>): (r: Option<string>)
    ensures header.None? ==> r.None?
    ensures r.Some? ==> r.value != [] && ' ' !in r.value
    ensures r.Some? ==> header.Some? && |Split(header.value, {' '})| >= 2 && r.value == Split(header.value, {' '})[1]
    ensures header.Some? ==>
      (r.Some? <==> |Split(header.value, {' '})| >= 2 && Split(header.value, {' '})[1] != [])
  {
    if header.None? then None
    else
      var parts := Split(header.value, {' '});
      if |parts| >= 2 && parts[1] != [] then
        SplitPartsExclude(header.value, {' '});
        Some(parts[1])
      else None
  }

  /** No part of a split holds a separator. */
  lemma {:induction false} SplitPartsExclude(s: string, seps: set<char>)
    ensures forall i :: 0 <= i < |Split(s, seps)| ==> forall c :: c in Split(s, seps)[i] ==> c !in seps
  {
    if s != [] {
      SplitPartsExclude(s[1..], seps);
    }
  }

  /** The usual header `Bearer <token>` yields the token. */
  lemma BearerHeaderYieldsToken(token: string)
    requires token != [] && ' ' !in token
    ensures ExtractToken(Some("Bearer " + token)) == Some(token)
  {
    assert "Bearer " + token == "Bearer" + " " + token;
    SplitOfWord("Bearer", token);
  }

  /** Splitting `w + " " + t` on spaces, for space-free `w` and `t`. */
  lemma SplitOfWord(w: string, t: string)
    requires ' ' !in w && ' ' !in t
    ensures Split(w + " " + t, {' '}) == [w, t]
  {
    assert NoneOf(w, {' '}) by {
      forall i | 0 <= i < |w| ensures w[i] !in {' '} { assert w[i] in w; }
    }
    assert w + " " + t == w + [' '] + t;
    SplitAtSeparator(w, ' ', t, {' '});
    SplitOfSpaceFree(t);
  }

  lemma SplitOfSpaceFree(t: string)
    requires ' ' !in t
    ensures Split(t, {' '}) == [t]
  {
    assert NoneOf(t, {' '}) by {
      forall i | 0 <= i < |t| ensures t[i] !in {' '} { assert t[i] in t; }
    }
    SplitWithoutSeparator(t, {' '});
  }

  /** A header without a space, such as a bare token, yields no token. */
  lemma HeaderWithoutSpaceIsRejected(header: string)
    requires ' ' !in header
    ensures ExtractToken(Some(header)) == None
  {
    SplitOfSpaceFree(header);
  }

  // ---------------------------------------------------------------------
  // Role normalisation

  /** Upper case, canonical decomposition, combining marks U+0300..U+036F
      removed, surrounding whitespace trimmed. */
  function Normalize(v: string): string {
    Trim(StripMarks(Nfd(Upper(v))))
  }

  /** `if (role === 'DOCTOR') role = 'MEDICO'; if (role === 'ADMIN') role = 'ADMINISTRADOR'`. */
  function Alias(role: string): (r: string)
  {
    if role == DoctorAlias then Medico
    else if role == AdminAlias then Administrador
    else role
  }

  /** The role the middleware compares. */
  function CanonicalRole(v: string): string {
    Alias(Normalize(v))
  }

  /** A character `Normalize` maps to itself. */
  predicate Stable(c: char) {
    UpperChar(c) == c && Decompose(c) == [c] && !IsMark(c)
  }

  predicate AllStable(s: string) {
    forall i :: 0 <= i < |s| ==> Stable(s[i])
  }

  /** Decomposing an upper-cased character gives stable characters and marks. */
  lemma DecomposedUpperIsStableOrMark(c: char)
    ensures forall d :: d in Decompose(UpperChar(c)) ==> Stable(d) || IsMark(d)
  {
  }

  lemma {:induction false} NfdOfUpperIsStableOrMark(v: string)
    ensures forall d :: d in Nfd(Upper(v)) ==> Stable(d) || IsMark(d)
  {
    if v != [] {
      assert Upper(v) == [UpperChar(v[0])] + Upper(v[1..]);
      assert Upper(v)[1..] == Upper(v[1..]);
      NfdOfUpperIsStableOrMark(v[1..]);
      DecomposedUpperIsStableOrMark(v[0]);
    }
  }

  /** Every character of a normalised role is stable. */
  lemma NormalizedIsStable(v: string)
    ensures AllStable(Normalize(v)) && IsTrimmed(Normalize(v))
  {
    NfdOfUpperIsStableOrMark(v);
    var stripped := StripMarks(Nfd(Upper(v)));
    StripMarksKeepsChars(Nfd(Upper(v)));
    assert forall i :: 0 <= i < |stripped| ==> Stable(stripped[i]);
    TrimKeepsChars(stripped);
  }

  lemma {:induction false} UpperOfStable(s: string)
    requires AllStable(s)
    ensures Upper(s) == s
  {
  }

  lemma {:induction false} NfdOfStable(s: string)
    requires AllStable(s)
    ensures Nfd(s) == s
  {
    if s != [] {
      assert AllStable(s[1..]) by {
        forall i | 0 <= i < |s[1..]| ensures Stable(s[1..][i]) {
          assert s[1..][i] == s[i + 1];
        }
      }
      NfdOfStable(s[1..]);
      assert Stable(s[0]);
    }
  }

  lemma {:induction false} StripMarksOfStable(s: string)
    requires AllStable(s)
    ensures StripMarks(s) == s
  {
    if s != [] {
      assert AllStable(s[1..]) by {
        forall i | 0 <= i < |s[1..]| ensures Stable(s[1..][i]) {
          assert s[1..][i] == s[i + 1];
        }
      }
      StripMarksOfStable(s[1..]);
      assert Stable(s[0]);
    }
  }

  /** A trimmed string of stable characters is its own normal form. */
  lemma NormalizeOfNormalForm(s: string)
    requires AllStable(s) && IsTrimmed(s)
    ensures Normalize(s) == s
  {
    UpperOfStable(s);
    NfdOfStable(s);
    StripMarksOfStable(s);
    TrimOfTrimmed(s);
  }

  /** Normalising twice is normalising once. */
  lemma NormalizeIdempotent(v: string)
    ensures Normalize(Normalize(v)) == Normalize(v)
  {
    NormalizedIsStable(v);
    NormalizeOfNormalForm(Normalize(v));
  }

  /** Blanks and the letters A–Z: text that needs no case mapping or
      decomposition. */
  predicate Plain(s: string) {
    forall i :: 0 <= i < |s| ==> s[i] == ' ' || 'A' <= s[i] <= 'Z'
  }

  lemma PlainIsStable(s: string)
    requires Plain(s)
    ensures AllStable(s)
  {
    forall i | 0 <= i < |s| ensures Stable(s[i]) {
      assert DecomposeUpper(s[i] as int) == [];
    }
  }

  lemma PlainNormalForm(s: string)
    requires Plain(s) && IsTrimmed(s)
    ensures Normalize(s) == s
  {
    PlainIsStable(s);
    NormalizeOfNormalForm(s);
  }

  /** The alias targets are already in normal form. */
  lemma MedicoIsNormal()
    ensures Normalize(Medico) == Medico
  {
    PlainNormalForm(Medico);
  }

  lemma AdministradorIsNormal()
    ensures Normalize(Administrador) == Administrador
  {
    PlainNormalForm(Administrador);
  }

  /** The canonical role is a fixed point: the role `authenticate` stores
      passes through `requireRole`'s own normalisation unchanged. */
  lemma CanonicalRoleIdempotent(v: string)
    ensures CanonicalRole(CanonicalRole(v)) == CanonicalRole(v)
  {
    var n := Normalize(v);
    if n == DoctorAlias {
      MedicoIsCanonical();
    } else if n == AdminAlias {
      AdministradorIsCanonical();
    } else {
      NormalizeIdempotent(v);
    }
  }

  lemma MedicoIsCanonical()
    ensures CanonicalRole(Medico) == Medico
  {
    MedicoIsNormal();
    assert Medico[0] != DoctorAlias[0] && |Medico| != |AdminAlias|;
  }

  lemma AdministradorIsCanonical()
    ensures CanonicalRole(Administrador) == Administrador
  {
    AdministradorIsNormal();
    assert |Administrador| != |DoctorAlias| && |Administrador| != |AdminAlias|;
  }

  /** `DOCTOR` is in normal form, so it is the role the alias rewrites. */
  lemma DoctorAliasIsNormal()
    ensures Normalize(DoctorAlias) == DoctorAlias
  {
    PlainNormalForm(DoctorAlias);
  }

  /** Letter case does not matter. */
  lemma CaseIsIgnored(v: string)
    ensures CanonicalRole(Upper(v)) == CanonicalRole(v)
  {
    UpperIdempotent(v);
  }

  /** Every spelling of "doctor", whatever its letter case, is MEDICO. */
  lemma SpellingsOfDoctor(v: string)
    requires Upper(v) == DoctorAlias
    ensures CanonicalRole(v) == Medico
  {
    CaseIsIgnored(v);
    DoctorAliasIsNormal();
  }

  /** Case mapping, decomposition and mark removal, the steps before `trim`,
      work character by character. */
  lemma {:induction false} FoldAppend(a: string, b: string)
    ensures StripMarks(Nfd(Upper(a + b))) == StripMarks(Nfd(Upper(a))) + StripMarks(Nfd(Upper(b)))
  {
    UpperAppend(a, b);
    NfdAppend(Upper(a), Upper(b));
    StripMarksAppend(Nfd(Upper(a)), Nfd(Upper(b)));
  }

  /** One blank on each side does not matter. */
  lemma PaddingIsIgnored(v: string)
    ensures CanonicalRole(" " + v + " ") == CanonicalRole(v)
  {
    var f := StripMarks(Nfd(Upper(v)));
    FoldAppend(" " + v, " ");
    FoldAppend(" ", v);
    BlankFolds();
    assert StripMarks(Nfd(Upper(" " + v + " "))) == " " + f + " ";
    TrimIgnoresPadding(f);
  }

  lemma BlankFolds()
    ensures StripMarks(Nfd(Upper(" "))) == " "
  {
    assert Upper(" ") == " ";
  }

  /** An accented letter counts as the plain one: "é" is read as "e". */
  lemma AccentIsIgnored(v: string, w: string)
    ensures CanonicalRole(v + ['\U{00E9}'] + w) == CanonicalRole(v + "e" + w)
  {
    var f, g := StripMarks(Nfd(Upper(v))), StripMarks(Nfd(Upper(w)));
    FoldAppend(v + ['\U{00E9}'], w);
    FoldAppend(v, ['\U{00E9}']);
    FoldAppend(v + "e", w);
    FoldAppend(v, "e");
    AccentedLetterFolds();
    assert StripMarks(Nfd(Upper(v + ['\U{00E9}'] + w))) == f + "E" + g;
    assert StripMarks(Nfd(Upper(v + "e" + w))) == f + "E" + g;
  }

  lemma AccentedLetterFolds()
    ensures StripMarks(Nfd(Upper(['\U{00E9}']))) == "E"
    ensures StripMarks(Nfd(Upper("e"))) == "E"
  {
    assert Upper(['\U{00E9}']) == ['\U{00C9}'];
    assert Nfd(['\U{00C9}']) == ['E', '\U{0301}'];
  }

  // ---------------------------------------------------------------------
  // The middleware

  /** The profile reply: `authResponse.data.user`, `None` when absent. */
  datatype ProfileReply = ProfileReply(user: Option<User>)

  /** `authenticate`: the token, the profile request, and the user stored
      with the canonical role (`user || {}`: no user, no id and no role). */
  function Authenticate(header: Option<string>, profile: string -> Option<ProfileReply>): (r: Result<User, AuthError>)
    ensures ExtractToken(header).None? ==> r == Err(TokenRequired)
    ensures ExtractToken(header).Some? && profile(ExtractToken(header).value).None? ==> r == Err(InvalidToken)
    ensures r.Ok? ==> ExtractToken(header).Some? && profile(ExtractToken(header).value).Some?
    ensures r.Ok? ==>
      var reply := profile(ExtractToken(header).value).value;
      r.value == (if reply.user.Some? then User(reply.user.value.id, CanonicalRole(reply.user.value.role)) else User(0, CanonicalRole("")))
  {
    match ExtractToken(header)
      case None => Err(TokenRequired)
      case Some(token) =>
        match profile(token)
          case None => Err(InvalidToken)
          case Some(reply) =>
            var user := if reply.user.Some? then reply.user.value else User(0, "");
            Ok(User(user.id, CanonicalRole(user.role)))
  }

  /** `roles.map(normalize).map(alias)`. */
  function CanonicalRoles(roles: seq<string>): (r: seq<string>)
    ensures |r| == |roles| && forall i :: 0 <= i < |roles| ==> r[i] == CanonicalRole(roles[i])
  {
    seq(|roles|, i requires 0 <= i < |roles| => CanonicalRole(roles[i]))
  }

  /** `requireRole(roles)` on `req.user`. */
  function RequireRole(user: Option<User>, roles: seq<string>): (r: Result<(), AuthError>)
    ensures user.None? <==> r == Err(Unauthenticated)
    ensures user.Some? ==>
      (r.Ok? <==> exists i :: 0 <= i < |roles| && CanonicalRole(roles[i]) == CanonicalRole(user.value.role))
    ensures r.Err? && user.Some? ==> r == Err(Forbidden)
  {
    if user.None? then Err(Unauthenticated)
    else
      var allowed := CanonicalRoles(roles);
      var role := CanonicalRole(user.value.role);
      assert role in allowed <==> exists i :: 0 <= i < |roles| && CanonicalRole(roles[i]) == role by {
        if role in allowed {
          var i :| 0 <= i < |allowed| && allowed[i] == role;
          assert CanonicalRole(roles[i]) == role;
        }
      }
      if role in allowed then Ok(()) else Err(Forbidden)
  }

  /** A role spelled "doctor", in any letter case, passes a route that
      requires ["MEDICO"]. */
  lemma DoctorPassesMedicoRoute(id: int, role: string)
    requires Upper(role) == DoctorAlias
    ensures RequireRole(Some(User(id, role)), [Medico]) == Ok(())
  {
    SpellingsOfDoctor(role);
    MedicoIsCanonical();
    assert CanonicalRole([Medico][0]) == CanonicalRole(role);
  }

  /** After `authenticate`, `requireRole` judges the user by the role the
      authentication service reported, whatever spelling either side uses. */
  lemma AuthenticatedUserIsJudgedByReportedRole(header: Option<string>, profile: string -> Option<ProfileReply>, roles: seq<string>)
    requires Authenticate(header, profile).Ok?
    requires profile(ExtractToken(header).value).value.user.Some?
    ensures var reported := profile(ExtractToken(header).value).value.user.value.role;
      RequireRole(Some(Authenticate(header, profile).value), roles).Ok?
      <==> exists i :: 0 <= i < |roles| && CanonicalRole(roles[i]) == CanonicalRole(reported)
  {
    var reported := profile(ExtractToken(header).value).value.user.value.role;
    CanonicalRoleIdempotent(reported);
  }
}
