/** The credential list of cmd/db/authorizations.go: lookup by email, the
    exclusive "set active" update done in place, and the list step of
    SaveAuth (update the token or append, then make the email active).
    Reading and writing the list in the key-value store is not modelled. */
module Authorizations {
  import opened Results

  /** One stored account. */
  datatype Authorization = Authorization(email: string, plexToken: string, isActive: bool)

  const EmailNotFound: string := "email not found"

  /** The smallest index holding the email, or -1. */
  function FirstIndex(s: seq<Authorization>, email: string): (r: int)
    ensures -1 <= r < |s|
    ensures r >= 0 ==> s[r].email == email && forall j :: 0 <= j < r ==> s[j].email != email
    ensures r == -1 <==> forall j :: 0 <= j < |s| ==> s[j].email != email
  {
    if s == [] then -1
    else if s[0].email == email then 0
    else
      var k := FirstIndex(s[1..], email);
      if k == -1 then -1 else k + 1
  }

  /** The largest index holding the email, or -1. */
  function LastIndex(s: seq<Authorization>, email: string): (r: int)
    ensures -1 <= r < |s|
    ensures r >= 0 ==> s[r].email == email && forall j :: r < j < |s| ==> s[j].email != email
    ensures r == -1 <==> forall j :: 0 <= j < |s| ==> s[j].email != email
  {
    if s == [] then -1
    else if s[|s| - 1].email == email then |s| - 1
    else LastIndex(s[..|s| - 1], email)
  }

  /** The list after a successful SetActive: the last entry with the email
      is active and every other entry inactive. Without the email, the
      list is unchanged. */
  function Activated(s: seq<Authorization>, email: string): seq<Authorization>
  {
    var k := LastIndex(s, email);
    if k == -1 then s
    else seq(|s|, i requires 0 <= i < |s| => s[i].(isActive := i == k))
  }

  /** SaveAuth's list update: replace the token at the first entry with the
      email, or append the authorization when the email is new. */
  function Upsert(s: seq<Authorization>, auth: Authorization): seq<Authorization>
  {
    var k := FirstIndex(s, auth.email);
    if k > -1 then s[k := s[k].(plexToken := auth.plexToken)] else s + [auth]
  }

  /** No email appears twice. */
  predicate UniqueEmails(s: seq<Authorization>) {
    forall i, j :: 0 <= i < j < |s| ==> s[i].email != s[j].email
  }

  /** FindIndexByEmail: an indexed scan returning at the first match. */
  method FindIndexByEmail(a: array<Authorization>, email: string) returns (index: int)
    ensures index == FirstIndex(a[..], email)
  {
    for i := 0 to a.Length
      invariant forall j :: 0 <= j < i ==> a[j].email != email
    {
      var auth := a[i];
      if auth.email == email {
        return i;
      }
    }
    return -1;
  }

  /** IsExists: some entry holds the email. */
  method IsExists(a: array<Authorization>, email: string) returns (b: bool)
    ensures b <==> exists j :: 0 <= j < a.Length && a[j].email == email
  {
    var index := FindIndexByEmail(a, email);
    b := index > -1;
  }

  /** SetActive's inner setActive: marks every entry with the email active
      and returns the last such index, or -1. */
  method MarkActive(a: array<Authorization>, email: string) returns (foundIndex: int)
    modifies a
    ensures foundIndex == LastIndex(old(a[..]), email)
    ensures forall i :: 0 <= i < a.Length ==>
      a[i] == if old(a[i]).email == email then old(a[i]).(isActive := true) else old(a[i])
  {
    foundIndex := -1;
    for i := 0 to a.Length
      invariant foundIndex == LastIndex(old(a[..])[..i], email)
      invariant forall j :: 0 <= j < i ==>
        a[j] == if old(a[j]).email == email then old(a[j]).(isActive := true) else old(a[j])
      invariant forall j :: i <= j < a.Length ==> a[j] == old(a[j])
    {
      assert old(a[..])[..i + 1][..i] == old(a[..])[..i];
      var auth := a[i];
      if auth.email == email {
        a[i] := a[i].(isActive := true);
        foundIndex := i;
      }
    }
    assert old(a[..])[..a.Length] == old(a[..]);
  }

  /** SetActive's inner setInactive: clears the flag everywhere except at
      skipIndex (when it is not -1). */
  method MarkInactiveExcept(a: array<Authorization>, skipIndex: int)
    modifies a
    ensures forall i :: 0 <= i < a.Length ==>
      a[i] == if skipIndex > -1 && i == skipIndex then old(a[i]) else old(a[i]).(isActive := false)
  {
    for i := 0 to a.Length
      invariant forall j :: 0 <= j < i ==>
        a[j] == if skipIndex > -1 && j == skipIndex then old(a[j]) else old(a[j]).(isActive := false)
      invariant forall j :: i <= j < a.Length ==> a[j] == old(a[j])
    {
      if skipIndex > -1 && i == skipIndex {
        continue;
      }
      a[i] := a[i].(isActive := false);
    }
  }

  /** SetActive: "email not found" and nothing changed when no entry holds
      the email; otherwise the last entry holding it becomes the only
      active one. */
  method SetActive(a: array<Authorization>, email: string) returns (err: Option<string>)
    modifies a
    ensures err.Some? <==> LastIndex(old(a[..]), email) == -1
    ensures err.Some? ==> err.value == EmailNotFound
    ensures a[..] == Activated(old(a[..]), email)
  {
    var authIndex := MarkActive(a, email);
    if authIndex < 0 {
      assert a[..] == old(a[..]);
      return Some(EmailNotFound);
    }
    MarkInactiveExcept(a, authIndex);
    assert a[..] == Activated(old(a[..]), email);
    return None;
  }

  /** The list step of SaveAuth: upsert, then set the email active. The
      slice append is a fresh array one longer. */
  method SaveAuthList(auths: array<Authorization>, auth: Authorization)
    returns (saved: array<Authorization>, err: Option<string>)
    modifies auths
    ensures saved == auths || fresh(saved)
    ensures saved[..] == Activated(Upsert(old(auths[..]), auth), auth.email)
    ensures err.None?
  {
    var index := FindIndexByEmail(auths, auth.email);
    if index > -1 {
      auths[index] := auths[index].(plexToken := auth.plexToken);
      saved := auths;
    } else {
      saved := new Authorization[auths.Length + 1](i reads auths => if 0 <= i < auths.Length then auths[i] else auth);
      assert saved[..] == old(auths[..]) + [auth];
    }
    assert saved[..] == Upsert(old(auths[..]), auth);
    UpsertHoldsEmail(old(auths[..]), auth);
    var e := SetActive(saved, auth.email);
    if e.Some? {
      // the "unable to set active account" return: unreachable after the upsert
      assert false;
    }
    err := None;
  }

  // ---------------------------------------------------------------------
  // Properties

  /** IsExists(e) is FindIndexByEmail(e) > -1, i.e. some entry holds e. */
  lemma FirstIndexFound(s: seq<Authorization>, email: string)
    ensures FirstIndex(s, email) > -1 <==> exists j :: 0 <= j < |s| && s[j].email == email
    ensures FirstIndex(s, email) > -1 <==> LastIndex(s, email) > -1
  {
  }

  /** SetActive never changes the length, an email or a token; on success
      the last entry with the email is the one and only active entry. */
  lemma ActivatedSpec(s: seq<Authorization>, email: string)
    ensures |Activated(s, email)| == |s|
    ensures forall i :: 0 <= i < |s| ==>
      Activated(s, email)[i].email == s[i].email && Activated(s, email)[i].plexToken == s[i].plexToken
    ensures LastIndex(s, email) == -1 ==> Activated(s, email) == s
    ensures LastIndex(s, email) > -1 ==>
      forall i :: 0 <= i < |s| ==>
        (Activated(s, email)[i].isActive <==> s[i].email == email && forall j :: i < j < |s| ==> s[j].email != email)
  {
    var k := LastIndex(s, email);
    if k > -1 {
      forall i | 0 <= i < |s|
        ensures Activated(s, email)[i].isActive <==> s[i].email == email && forall j :: i < j < |s| ==> s[j].email != email
      {
        if i < k {
          assert s[k].email == email;
        }
      }
    }
  }

  /** After the upsert the email is always in the list, so SaveAuth's
      SetActive call cannot fail. */
  lemma UpsertHoldsEmail(s: seq<Authorization>, auth: Authorization)
    ensures LastIndex(Upsert(s, auth), auth.email) > -1
  {
    var u := Upsert(s, auth);
    var k := FirstIndex(s, auth.email);
    if k > -1 {
      assert u[k].email == auth.email;
    } else {
      assert u[|s|].email == auth.email;
    }
  }

  /** The upsert changes only the token at the first matching entry when
      the email is there, and otherwise appends the authorization. */
  lemma UpsertSpec(s: seq<Authorization>, auth: Authorization)
    ensures FirstIndex(s, auth.email) > -1 ==>
      var k := FirstIndex(s, auth.email);
      && |Upsert(s, auth)| == |s|
      && Upsert(s, auth)[k] == s[k].(plexToken := auth.plexToken)
      && forall i :: 0 <= i < |s| && i != k ==> Upsert(s, auth)[i] == s[i]
    ensures FirstIndex(s, auth.email) == -1 ==> Upsert(s, auth) == s + [auth]
  {
  }

  /** After SaveAuth's list step exactly one entry is active, and it holds
      the saved email. */
  lemma {:induction false} SaveAuthOneActive(s: seq<Authorization>, auth: Authorization)
    ensures var r := Activated(Upsert(s, auth), auth.email);
      && (exists k :: 0 <= k < |r| && r[k].isActive && r[k].email == auth.email)
      && forall i, j :: 0 <= i < |r| && 0 <= j < |r| && r[i].isActive && r[j].isActive ==> i == j
  {
    var u := Upsert(s, auth);
    UpsertHoldsEmail(s, auth);
    var k := LastIndex(u, auth.email);
    var r := Activated(u, auth.email);
    assert r[k].isActive && r[k].email == auth.email;
  }

  /** With distinct emails, the upsert keeps them distinct, and the saved
      email sits where the upsert put it. */
  lemma UpsertKeepsUnique(s: seq<Authorization>, auth: Authorization)
    requires UniqueEmails(s)
    ensures UniqueEmails(Upsert(s, auth))
    ensures var k := FirstIndex(s, auth.email);
      LastIndex(Upsert(s, auth), auth.email) == if k > -1 then k else |s|
  {
    var u := Upsert(s, auth);
    var k := FirstIndex(s, auth.email);
    if k > -1 {
      assert |u| == |s|;
      assert forall i :: 0 <= i < |s| ==> u[i].email == s[i].email;
      assert UniqueEmails(u);
      OnlyIndex(u, auth.email, k);
    } else {
      assert u == s + [auth];
      UniqueAppend(s, auth);
      OnlyIndex(u, auth.email, |s|);
    }
  }

  /** With distinct emails, the entry holding an email is its last one. */
  lemma OnlyIndex(s: seq<Authorization>, email: string, i: int)
    requires UniqueEmails(s) && 0 <= i < |s| && s[i].email == email
    ensures LastIndex(s, email) == i
  {
    var last := LastIndex(s, email);
    assert last != -1;
    assert s[last].email == s[i].email;
  }

  /** Appending an email that is not in a list of distinct emails keeps
      them distinct. */
  lemma UniqueAppend(s: seq<Authorization>, auth: Authorization)
    requires UniqueEmails(s)
    requires forall j :: 0 <= j < |s| ==> s[j].email != auth.email
    ensures UniqueEmails(s + [auth])
  {
    var u := s + [auth];
    forall i, j | 0 <= i < j < |u| ensures u[i].email != u[j].email {
      if j == |s| {
        assert u[i] == s[i];
      } else {
        assert u[i] == s[i] && u[j] == s[j];
      }
    }
  }

  /** With distinct emails, SaveAuth's list step keeps them distinct and
      the one active entry carries the saved token. */
  lemma SaveAuthUniqueEmails(s: seq<Authorization>, auth: Authorization)
    requires UniqueEmails(s)
    ensures UniqueEmails(Activated(Upsert(s, auth), auth.email))
    ensures var r := Activated(Upsert(s, auth), auth.email);
      forall i :: 0 <= i < |r| && r[i].isActive ==> r[i].email == auth.email && r[i].plexToken == auth.plexToken
  {
    var u := Upsert(s, auth);
    UpsertKeepsUnique(s, auth);
    UpsertHoldsEmail(s, auth);
    ActivatedSpec(u, auth.email);
  }

  /** With a duplicate of the email already stored, SaveAuth's list step
      writes the new token into the first entry but activates the last,
      which keeps its old token. */
  lemma DuplicateEmailActivatesStaleToken(s: seq<Authorization>, auth: Authorization)
    requires FirstIndex(s, auth.email) != LastIndex(s, auth.email)
    ensures var r := Activated(Upsert(s, auth), auth.email);
      var k := LastIndex(s, auth.email);
      && 0 <= k < |r| && r[k].isActive && r[k].plexToken == s[k].plexToken
      && forall i :: 0 <= i < |r| && i != k ==> !r[i].isActive
  {
    var f := FirstIndex(s, auth.email);
    var k := LastIndex(s, auth.email);
    var u := Upsert(s, auth);
    assert f > -1 && k > f;
    assert |u| == |s| && u[k] == s[k];
    var l := LastIndex(u, auth.email);
    assert u[l].email == s[l].email;
    assert l == k;
  }
}
