/** The pure parts of the request handlers: the page-number parser, the two
    input patterns, the checks each JSON API makes before touching the
    database, and the signed session cookie. */
module Handlers {
  import opened Wrappers
  import opened Text
  import opened Apis
  import opened Orm
  import Models

  // ------------------------------------------------------------ page index

  /** `get_page_index(page_str)`: the requested page, or the first page when
      the text is not an integer or names a page before the first. */
  function PageIndex(pageText: string): (p: int)
    ensures p >= 1
    ensures ParseInt(pageText).Some? && ParseInt(pageText).value >= 1 ==> p == ParseInt(pageText).value
    ensures ParseInt(pageText).None? || ParseInt(pageText).value < 1 ==> p == 1
  {
    var p := match ParseInt(pageText) case Some(n) => n case None => 1;
    if p < 1 then 1 else p
  }

  /** Every page number a link can carry comes back unchanged, and feeding a
      parsed index back through the parser changes nothing. */
  lemma {:induction false} PageIndexRoundTrip(n: int, pageText: string)
    ensures n >= 1 ==> PageIndex(IntToString(n)) == n
    ensures PageIndex(IntToString(PageIndex(pageText))) == PageIndex(pageText)
  {
    ParseIntToString(n);
    ParseIntToString(PageIndex(pageText));
  }

  // ------------------------------------------------------------- patterns

  /** Python's `$` in `re.match` matches at the very end or just before one
      final line feed. */
  predicate MatchAtEnd(s: string, shape: string -> bool) {
    shape(s) || (|s| > 0 && s[|s| - 1] == '\n' && shape(s[..|s| - 1]))
  }

  predicate LocalChar(c: char) {
    'a' <= c <= 'z' || IsDigit(c) || c == '.' || c == '-' || c == '_'
  }

  predicate LabelChar(c: char) {
    'a' <= c <= 'z' || IsDigit(c) || c == '-' || c == '_'
  }

  /** `[a-z0-9\.\-\_]+` */
  predicate LocalPart(s: string) {
    |s| > 0 && forall i :: 0 <= i < |s| ==> LocalChar(s[i])
  }

  /** `[a-z0-9\-\_]+` */
  predicate Label(s: string) {
    |s| > 0 && forall i :: 0 <= i < |s| ==> LabelChar(s[i])
  }

  predicate AllLabels(labels: seq<string>) {
    forall i :: 0 <= i < |labels| ==> Label(labels[i])
  }

  /** The e-mail pattern without its end anchor: a local part, `@`, and a
      host of two to five dot-separated labels.  Neither part can hold an
      `@`, and a label cannot hold a dot, so splitting finds the pieces. */
  predicate EmailShape(t: string) {
    var parts := Split(t, '@');
    && |parts| == 2
    && LocalPart(parts[0])
    && var labels := Split(parts[1], '.');
    && 2 <= |labels| <= 5
    && AllLabels(labels)
  }

  /** `_RE_EMAIL.match(s)` succeeds. */
  predicate IsEmail(s: string) {
    MatchAtEnd(s, EmailShape)
  }

  predicate Sha1Shape(t: string) {
    |t| == 40 && Models.IsLowerHex(t)
  }

  /** `_RE_SHA1.match(s)` succeeds. */
  predicate IsSha1(s: string) {
    MatchAtEnd(s, Sha1Shape)
  }

  lemma {:induction false} JoinAvoids(c: char, sep: string, xs: seq<string>)
    requires c !in sep
    requires forall i :: 0 <= i < |xs| ==> c !in xs[i]
    ensures c !in Join(sep, xs)
  {
    if |xs| > 1 {
      JoinAvoids(c, sep, xs[1..]);
    }
  }

  /** Every address the pattern describes is accepted: a local part, `@`,
      and two to five labels joined by dots. */
  lemma {:induction false} EmailAccepts(local: string, labels: seq<string>)
    requires LocalPart(local)
    requires 2 <= |labels| <= 5 && AllLabels(labels)
    ensures IsEmail(local + "@" + Join(".", labels))
  {
    var host := Join(".", labels);
    forall i | 0 <= i < |labels| ensures '.' !in labels[i] && '@' !in labels[i] {
      assert Label(labels[i]);
    }
    JoinAvoids('@', ".", labels);
    SplitJoin(labels, '.');
    assert '@' !in local by {
      assert forall i :: 0 <= i < |local| ==> LocalChar(local[i]);
    }
    SplitJoin([local, host], '@');
    assert Join("@", [local, host]) == local + "@" + host;
  }

  /** The text the e-mail pattern matched, without the line feed `$` skips. */
  function EmailBody(s: string): string
    requires IsEmail(s)
  {
    if EmailShape(s) then s else s[..|s| - 1]
  }

  /** Conversely, whatever is accepted is such an address, perhaps followed
      by one line feed. */
  lemma {:induction false} EmailDecomposes(s: string)
    requires IsEmail(s)
    ensures s == EmailBody(s) || s == EmailBody(s) + "\n"
    ensures var parts := Split(EmailBody(s), '@');
      var labels := Split(parts[1], '.');
      && EmailBody(s) == parts[0] + "@" + Join(".", labels)
      && LocalPart(parts[0]) && 2 <= |labels| <= 5 && AllLabels(labels)
  {
    var t := EmailBody(s);
    if !EmailShape(s) {
      assert s == t + "\n";
    }
    var parts := Split(t, '@');
    JoinSplit(t, '@');
    JoinSplit(parts[1], '.');
    assert Join("@", parts) == parts[0] + "@" + parts[1];
  }

  /** Accepted addresses are lower case: upper-case letters never match. */
  lemma {:induction false} EmailIsLowerCase(s: string)
    requires IsEmail(s)
    ensures forall i :: 0 <= i < |s| ==> !('A' <= s[i] <= 'Z')
  {
    var t := EmailBody(s);
    EmailDecomposes(s);
    var parts := Split(t, '@');
    var labels := Split(parts[1], '.');
    assert NoUpper(Join(".", labels)) by {
      forall i | 0 <= i < |labels| ensures NoUpper(labels[i]) {
        assert Label(labels[i]);
      }
      JoinNoUpper(".", labels);
    }
    assert NoUpper(parts[0]) by {
      assert LocalPart(parts[0]);
    }
    NoUpperAppend(parts[0], "@");
    NoUpperAppend(parts[0] + "@", Join(".", labels));
    NoUpperAppend(t, "\n");
  }

  lemma {:induction false} NoUpperAppend(a: string, b: string)
    requires NoUpper(a) && NoUpper(b)
    ensures NoUpper(a + b)
  {
  }

  predicate NoUpper(s: string) {
    forall i :: 0 <= i < |s| ==> !('A' <= s[i] <= 'Z')
  }

  lemma {:induction false} JoinNoUpper(sep: string, xs: seq<string>)
    requires NoUpper(sep)
    requires forall i :: 0 <= i < |xs| ==> NoUpper(xs[i])
    ensures NoUpper(Join(sep, xs))
  {
    if |xs| > 1 {
      JoinNoUpper(sep, xs[1..]);
      assert Join(sep, xs) == xs[0] + sep + Join(sep, xs[1..]);
    }
  }

  /** A SHA-1 hex digest is accepted, with or without one trailing line
      feed, and nothing of another length is. */
  lemma {:induction false} Sha1Accepts(h: string, s: string)
    ensures Sha1Shape(h) ==> IsSha1(h) && IsSha1(h + "\n")
    ensures IsSha1(s) ==> |s| == 40 || (|s| == 41 && s[40] == '\n')
  {
    if Sha1Shape(h) {
      assert (h + "\n")[..|h + "\n"| - 1] == h;
    }
  }

  // ------------------------------------------------------------ validation

  /** The checks `api_register_user` makes before looking the address up,
      in their order; `None` lets the request through. */
  function CheckRegistration(email: string, name: string, passwd: string): (r: Option<ApiError>)
    ensures r.None? <==> !Blank(name) && IsEmail(email) && IsSha1(passwd)
    ensures r == Some(ValueError("name")) <==> Blank(name)
    ensures r == Some(ValueError("email")) <==> !Blank(name) && !IsEmail(email)
    ensures r == Some(ValueError("passwd")) <==> !Blank(name) && IsEmail(email) && !IsSha1(passwd)
  {
    StripEmptyIffBlank(name);
    if name == "" || Strip(name) == "" then Some(ValueError("name"))
    else if email == "" || !IsEmail(email) then Some(ValueError("email"))
    else if passwd == "" || !IsSha1(passwd) then Some(ValueError("passwd"))
    else None
  }

  /** The checks `api_create_blog` makes once the caller is an administrator. */
  function CheckBlog(name: string, summary: string, content: string): (r: Option<ApiError>)
    ensures r.None? <==> !Blank(name) && !Blank(summary) && !Blank(content)
    ensures r == Some(ValueError("name", "name cannot be empty.")) <==> Blank(name)
    ensures r == Some(ValueError("summary", "summary cannot be empty.")) <==> !Blank(name) && Blank(summary)
    ensures r == Some(ValueError("content", "content cannot be empty."))
        <==> !Blank(name) && !Blank(summary) && Blank(content)
  {
    StripEmptyIffBlank(name);
    StripEmptyIffBlank(summary);
    StripEmptyIffBlank(content);
    if name == "" || Strip(name) == "" then Some(ValueError("name", "name cannot be empty."))
    else if summary == "" || Strip(summary) == "" then Some(ValueError("summary", "summary cannot be empty."))
    else if content == "" || Strip(content) == "" then Some(ValueError("content", "content cannot be empty."))
    else None
  }

  /** The checks `authenticate` makes before looking the address up. */
  function CheckCredentials(email: string, passwd: string): (r: Option<ApiError>)
    ensures r.None? <==> |email| > 0 && |passwd| > 0
    ensures r.Some? ==> r.value.error == "value:invalid"
    ensures r.Some? && r.value.data == "email" <==> email == ""
    ensures r.Some? ==> r.value.data == (if email == "" then "email" else "passwd")
    ensures r.Some? ==> r.value.message == (if email == "" then "Invalid email." else "Invalid password.")
  {
    if email == "" then Some(ValueError("email", "Invalid email."))
    else if passwd == "" then Some(ValueError("passwd", "Invalid password."))
    else None
  }

  // --------------------------------------------------------------- cookies

  const CookieName := "awesession"

  /** What is signed: `'%s-%s-%s-%s' % (id, passwd, expires, secret)`. */
  function Signed(uid: string, passwd: string, expires: string, secret: string): string {
    uid + "-" + passwd + "-" + expires + "-" + secret
  }

  /** `user2cookie(user, max_age)` at clock reading `now`, with the secret
      key and SHA-1 hex digest passed in. */
  function UserToCookie(uid: string, passwd: string, maxAge: int, now: real,
                        secret: string, sha1: string -> string): (cookie: string)
    ensures var expires := IntToString(Trunc(now + maxAge as real));
      var digest := sha1(Signed(uid, passwd, expires, secret));
      '-' !in uid && '-' !in expires && '-' !in digest ==> Split(cookie, '-') == [uid, expires, digest]
  {
    var expires := IntToString(Trunc(now + maxAge as real));
    var parts := [uid, expires, sha1(Signed(uid, passwd, expires, secret))];
    assert '-' !in parts[0] && '-' !in parts[1] && '-' !in parts[2] ==> Split(Join("-", parts), '-') == parts by {
      if '-' !in parts[0] && '-' !in parts[1] && '-' !in parts[2] {
        SplitJoin(parts, '-');
      }
    }
    Join("-", parts)
  }

  /** `user.passwd = '******'`. */
  function Masked(user: Entity): Entity {
    user["passwd" := Str("******")]
  }

  /** `cookie2user(cookie_str)` at clock reading `now`.  `find` is
      `User.find`, `show` is Python's `str` on a column value; `None` stands
      for every path that returns `None`, including a caught exception. */
  function CookieToUser(cookie: string, now: real, secret: string, sha1: string -> string,
                        find: string -> Option<Entity>, show: Value -> string): (r: Option<Entity>)
    ensures r.Some? ==>
      var parts := Split(cookie, '-');
      && |parts| == 3
      && ParseInt(parts[1]).Some? && ParseInt(parts[1]).value as real >= now
      && find(parts[0]).Some?
      && "passwd" in find(parts[0]).value
      && parts[2] == sha1(Signed(parts[0], show(find(parts[0]).value["passwd"]), parts[1], secret))
      && r.value == Masked(find(parts[0]).value)
    ensures r.Some? ==> GetValue(r.value, "passwd") == Str("******")
  {
    if cookie == "" then None
    else
      var parts := Split(cookie, '-');
      if |parts| != 3 then None
      else
        var uid, expires, digest := parts[0], parts[1], parts[2];
        match ParseInt(expires)
        case None => None
        case Some(e) =>
          if (e as real) < now then None
          else match find(uid)
            case None => None
            case Some(user) =>
              match GetAttr(user, "passwd")
              case Failure(_) => None
              case Success(p) =>
                if digest != sha1(Signed(uid, show(p), expires, secret)) then None
                else Some(Masked(user))
  }

  /** A cookie issued for a user is accepted back until it expires, as long
      as the key has no dash, the store still holds that user with the same
      password, and the same secret is in use: it yields that user with the
      password hidden. */
  lemma {:induction false} CookieRoundTrip(uid: string, passwd: string, maxAge: int, issued: real, now: real,
                        secret: string, sha1: string -> string,
                        find: string -> Option<Entity>, show: Value -> string)
    requires '-' !in uid
    requires forall s :: '-' !in sha1(s)
    requires find(uid).Some? && "passwd" in find(uid).value
    requires show(find(uid).value["passwd"]) == passwd
    requires 0.0 <= now <= Trunc(issued + maxAge as real) as real
    ensures CookieToUser(UserToCookie(uid, passwd, maxAge, issued, secret, sha1), now, secret, sha1, find, show)
         == Some(Masked(find(uid).value))
  {
    var expiry := Trunc(issued + maxAge as real);
    var expires := IntToString(expiry);
    assert '-' !in expires;
    var cookie := UserToCookie(uid, passwd, maxAge, issued, secret, sha1);
    assert [uid, expires, sha1(Signed(uid, passwd, expires, secret))][1..] == [expires, sha1(Signed(uid, passwd, expires, secret))];
    assert |cookie| > 0;
    ParseIntToString(expiry);
  }

  /** In particular the cookie issued at registration, whose key comes
      from `next_id` at a clock reading after 1970, is accepted back until
      it expires. */
  lemma {:induction false} RegisteredCookieRoundTrip(millis: int, hex: string, passwd: string, maxAge: int,
                                  issued: real, now: real, secret: string, sha1: string -> string,
                                  find: string -> Option<Entity>, show: Value -> string)
    requires millis >= 0 && Models.IsLowerHex(hex)
    requires forall s :: '-' !in sha1(s)
    requires var uid := Models.NextIdOf(millis, hex);
      find(uid).Some? && "passwd" in find(uid).value && show(find(uid).value["passwd"]) == passwd
    requires 0.0 <= now <= Trunc(issued + maxAge as real) as real
    ensures var uid := Models.NextIdOf(millis, hex);
      CookieToUser(UserToCookie(uid, passwd, maxAge, issued, secret, sha1), now, secret, sha1, find, show)
        == Some(Masked(find(uid).value))
  {
    Models.NextIdDashFree(millis, hex);
    CookieRoundTrip(Models.NextIdOf(millis, hex), passwd, maxAge, issued, now, secret, sha1, find, show);
  }

  /** Two signed strings for the same user and secret agree only when the
      dash-free expiry stamps agree. */
  lemma {:induction false} SignedDeterminesExpiry(uid: string, passwd: string, e1: string, e2: string, secret: string)
    requires '-' !in e1 && '-' !in e2
    requires Signed(uid, passwd, e1, secret) == Signed(uid, passwd, e2, secret)
    ensures e1 == e2
  {
    var n := |uid| + 1 + |passwd| + 1;
    var tail := "-" + secret;
    assert Signed(uid, passwd, e1, secret)[n..] == e1 + tail;
    assert Signed(uid, passwd, e2, secret)[n..] == e2 + tail;
    SplitPrefix(e1, '-', tail);
    SplitPrefix(e2, '-', tail);
    assert tail[0] == '-' && tail[1..] == secret;
    assert Split(tail, '-') == [""] + Split(secret, '-');
    assert e1 + "" == e1 && e2 + "" == e2;
    assert e1 + tail == e2 + tail;
    assert Split(e1 + tail, '-')[0] == e1;
    assert Split(e2 + tail, '-')[0] == e2;
  }

  lemma {:induction false} JoinThree(a: string, b: string, c: string)
    ensures Join("-", [a, b, c]) == a + "-" + b + "-" + c
  {
    assert [a, b, c][1..] == [b, c];
    assert [b, c][1..] == [c];
    assert Join("-", [b, c]) == b + "-" + c;
    assert Join("-", [a, b, c]) == a + "-" + (b + "-" + c);
  }

  /** Conversely, a cookie whose expiry stamp was altered is refused when
      the digest tells signed strings apart. */
  lemma {:induction false} ForgedExpiryRefused(uid: string, passwd: string, maxAge: int, issued: real, now: real,
                            secret: string, sha1: string -> string,
                            find: string -> Option<Entity>, show: Value -> string, forged: string)
    requires '-' !in uid && '-' !in forged
    requires forall s :: '-' !in sha1(s)
    requires forall s, t :: sha1(s) == sha1(t) ==> s == t
    requires find(uid).Some? && "passwd" in find(uid).value
    requires show(find(uid).value["passwd"]) == passwd
    requires issued + maxAge as real >= 0.0
    requires forged != IntToString(Trunc(issued + maxAge as real))
    ensures var expires := IntToString(Trunc(issued + maxAge as real));
      var digest := sha1(Signed(uid, passwd, expires, secret));
      CookieToUser(uid + "-" + forged + "-" + digest, now, secret, sha1, find, show).None?
  {
    var expires := IntToString(Trunc(issued + maxAge as real));
    var digest := sha1(Signed(uid, passwd, expires, secret));
    var cookie := uid + "-" + forged + "-" + digest;
    JoinThree(uid, forged, digest);
    SplitJoin([uid, forged, digest], '-');
    var r := CookieToUser(cookie, now, secret, sha1, find, show);
    if r.Some? {
      assert Signed(uid, passwd, forged, secret) == Signed(uid, passwd, expires, secret);
      assert '-' !in expires;
      SignedDeterminesExpiry(uid, passwd, forged, expires, secret);
      assert false;
    }
  }
}
