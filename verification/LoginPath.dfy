/** The login requests of the built-in auth methods and the test that exempts them from the token lifecycle. */
module LoginPath {
  import opened Common
  import opened PathEncoding

  const AUTH: Bytes := [0x61, 0x75, 0x74, 0x68, 0x2F] // auth/
  const LOGIN: Bytes := [0x2F, 0x6C, 0x6F, 0x67, 0x69, 0x6E] // /login
  const TOKEN: Bytes := [0x74, 0x6F, 0x6B, 0x65, 0x6E] // token
  const RENEW: Bytes := [0x72, 0x65, 0x6E, 0x65, 0x77, 0x2D, 0x73, 0x65, 0x6C, 0x66] // renew-self
  const RENEW_SELF: Bytes := AUTH + TOKEN + [SLASH] + RENEW

  /** The built-in `AuthMethod` implementations, with the fields that reach the request path. */
  datatype AuthMethod =
    | AppRole(mount: Bytes)
    | Kubernetes(mount: Bytes)
    | Userpass(mount: Bytes, username: Bytes)
    | Ldap(mount: Bytes, username: Bytes)
    | Github(mount: Bytes)
    | Jwt(mount: Bytes)
    | Aws(mount: Bytes)
    | Azure(mount: Bytes)
    | Gcp(mount: Bytes)

  /** The path that the method's `login` passes to `execute`. */
  function Path(m: AuthMethod): Bytes {
    var login := AUTH + Encode(m.mount) + LOGIN;
    match m
    case Userpass(_, username) => login + [SLASH] + Encode(username)
    case Ldap(_, username) => login + [SLASH] + Encode(username)
    case _ => login
  }

  /** `path.starts_with("auth/") && path.contains("/login")`. */
  predicate IsLogin(path: Bytes) {
    AUTH <= path && Contains(path, LOGIN)
  }

  /** What a server reads: `auth`, the mount, `login`, and the user name if the method has one. */
  lemma LoginSegments(m: AuthMethod)
    ensures Segments(Path(m)) ==
            [[0x61, 0x75, 0x74, 0x68]] + EncodeAll(Segments(m.mount)) + [[0x6C, 0x6F, 0x67, 0x69, 0x6E]]
            + match m
              case Userpass(_, username) => EncodeAll(Segments(username))
              case Ldap(_, username) => EncodeAll(Segments(username))
              case _ => []
  {
    LoginFront(m.mount);
    match m
    case Userpass(_, username) => LoginOfUser(m.mount, username);
    case Ldap(_, username) => LoginOfUser(m.mount, username);
    case _ =>
  }

  lemma LoginFront(mount: Bytes)
    ensures Segments(AUTH + Encode(mount) + LOGIN) ==
            [[0x61, 0x75, 0x74, 0x68]] + EncodeAll(Segments(mount)) + [[0x6C, 0x6F, 0x67, 0x69, 0x6E]]
  {
    var auth: Bytes := [0x61, 0x75, 0x74, 0x68];
    var login: Bytes := [0x6C, 0x6F, 0x67, 0x69, 0x6E];
    Joined(auth, Encode(mount), login);
    EncodeKeepsSegments(mount);
    JoinedParts(auth, Encode(mount), login);
    assert AUTH == auth + [SLASH] && LOGIN == [SLASH] + login;
  }

  lemma JoinedParts(first: Bytes, middle: Bytes, last: Bytes)
    ensures (first + [SLASH]) + middle + ([SLASH] + last) == first + [SLASH] + (middle + [SLASH] + last)
  {
  }

  lemma LoginOfUser(mount: Bytes, username: Bytes)
    ensures Segments(AUTH + Encode(mount) + LOGIN + [SLASH] + Encode(username)) ==
            Segments(AUTH + Encode(mount) + LOGIN) + EncodeAll(Segments(username))
  {
    SegmentsJoin(AUTH + Encode(mount) + LOGIN, Encode(username));
    EncodeKeepsSegments(username);
  }

  lemma Joined(first: Bytes, middle: Bytes, last: Bytes)
    requires SLASH !in first && SLASH !in last
    ensures Segments(first + [SLASH] + (middle + [SLASH] + last)) == [first] + Segments(middle) + [last]
  {
    SegmentsOfWord(first);
    SegmentsOfWord(last);
    SegmentsJoin(middle, last);
    SegmentsJoin(first, middle + [SLASH] + last);
  }

  /** The renewal goes to `auth`, `token`, `renew-self`. */
  lemma RenewSelfSegments()
    ensures Segments(RENEW_SELF) == [[0x61, 0x75, 0x74, 0x68], [0x74, 0x6F, 0x6B, 0x65, 0x6E],
                                     [0x72, 0x65, 0x6E, 0x65, 0x77, 0x2D, 0x73, 0x65, 0x6C, 0x66]]
  {
    var auth: Bytes := [0x61, 0x75, 0x74, 0x68];
    Joined(auth, TOKEN, RENEW);
    SegmentsOfWord(TOKEN);
    assert AUTH == auth + [SLASH];
    assert auth + [SLASH] + (TOKEN + [SLASH] + RENEW) == RENEW_SELF;
  }

  /**
   * The test, in terms of segments: the first one is `auth`, it is not the only one, and a
   * later one starts with `login`.
   */
  predicate LooksLikeLogin(segs: seq<Bytes>) {
    && |segs| >= 2 && segs[0] == [0x61, 0x75, 0x74, 0x68]
    && exists k :: 1 <= k < |segs| && [0x6C, 0x6F, 0x67, 0x69, 0x6E] <= segs[k]
  }

  lemma {:induction false} PrefixOfFirst(s: Bytes, word: Bytes)
    requires SLASH !in word
    ensures word <= s <==> word <= Segments(s)[0]
  {
    if s != [] && word != [] {
      PrefixOfFirst(s[1..], word[1..]);
      assert word <= s <==> word[0] == s[0] && word[1..] <= s[1..];
    }
  }

  /** `/word` occurs in a text exactly if a segment other than the first starts with the word. */
  lemma {:induction false} SlashWord(s: Bytes, word: Bytes)
    requires SLASH !in word
    ensures Contains(s, [SLASH] + word) <==> exists k :: 1 <= k < |Segments(s)| && word <= Segments(s)[k]
  {
    var needle := [SLASH] + word;
    if s == [] {
    } else {
      var rest := s[1..];
      var segs := Segments(rest);
      SlashWord(rest, word);
      ContainsStep(s, needle);
      if s[0] == SLASH {
        PrefixOfFirst(rest, word);
        assert OccursAt(s, needle, 0) <==> word <= rest by { PrefixAfterSlash(s, word); }
        assert forall k :: 1 <= k < |Segments(s)| ==> Segments(s)[k] == segs[k - 1];
        if word <= segs[0] {
          assert word <= Segments(s)[1];
        }
        if k :| 1 <= k < |segs| && word <= segs[k] {
          assert word <= Segments(s)[k + 1];
        }
      } else {
        assert !OccursAt(s, needle, 0) by {
          if OccursAt(s, needle, 0) {
            OccursByte(s, needle, 0, 0);
          }
        }
        assert forall k :: 1 <= k < |segs| ==> Segments(s)[k] == segs[k];
      }
    }
  }

  lemma PrefixAfterSlash(s: Bytes, word: Bytes)
    requires s != [] && s[0] == SLASH
    ensures OccursAt(s, [SLASH] + word, 0) <==> word <= s[1..]
  {
    if word <= s[1..] {
      assert s[..1 + |word|] == [SLASH] + s[1..][..|word|];
    }
    if OccursAt(s, [SLASH] + word, 0) {
      assert s[1..][..|word|] == s[..1 + |word|][1..] == word;
    }
  }

  lemma ContainsStep(s: Bytes, needle: Bytes)
    requires s != [] && needle != []
    ensures Contains(s, needle) <==> OccursAt(s, needle, 0) || Contains(s[1..], needle)
  {
    forall i | 1 <= i <= |s|
      ensures OccursAt(s, needle, i) <==> OccursAt(s[1..], needle, i - 1)
    {
      if i + |needle| <= |s| {
        assert s[1..][i - 1..i - 1 + |needle|] == s[i..i + |needle|];
      }
    }
    if i :| 0 <= i <= |s[1..]| && OccursAt(s[1..], needle, i) {
      assert OccursAt(s, needle, i + 1);
    }
  }

  lemma AuthPrefix(path: Bytes)
    ensures AUTH <= path <==> |Segments(path)| >= 2 && Segments(path)[0] == [0x61, 0x75, 0x74, 0x68]
  {
    var auth: Bytes := [0x61, 0x75, 0x74, 0x68];
    assert AUTH == auth + [SLASH];
    if AUTH <= path {
      var rest := path[5..];
      assert path == auth + [SLASH] + rest;
      SegmentsJoin(auth, rest);
      SegmentsOfWord(auth);
    } else if |Segments(path)| >= 2 && Segments(path)[0] == auth {
      FirstSegment(path);
    }
  }

  /** A text with more than one segment starts with the first one and a `/`. */
  lemma {:induction false} FirstSegment(s: Bytes)
    requires |Segments(s)| >= 2
    ensures Segments(s)[0] + [SLASH] <= s
  {
    if s[0] != SLASH {
      FirstSegment(s[1..]);
      assert s == [s[0]] + s[1..];
    }
  }

  /** The test asks exactly this of the path. */
  lemma IsLoginExactly(path: Bytes)
    ensures IsLogin(path) <==> LooksLikeLogin(Segments(path))
  {
    var login: Bytes := [0x6C, 0x6F, 0x67, 0x69, 0x6E];
    AuthPrefix(path);
    SlashWord(path, login);
    assert LOGIN == [SLASH] + login;
  }

  /** Every built-in login is exempt, whatever the mount and the user name. */
  lemma BuiltInLoginIsExempt(m: AuthMethod)
    ensures IsLogin(Path(m))
  {
    var at := |AUTH + Encode(m.mount)|;
    assert OccursAt(Path(m), LOGIN, at);
  }

  /** The renewal path is not exempt: sent through `execute` it would recurse. */
  lemma RenewSelfIsNotExempt()
    ensures !IsLogin(RENEW_SELF)
  {
    RenewSelfSegments();
    IsLoginExactly(RENEW_SELF);
    var segs := Segments(RENEW_SELF);
    assert |segs| == 3 && segs[1][0] == 0x74 && segs[2][0] == 0x72;
  }
}
