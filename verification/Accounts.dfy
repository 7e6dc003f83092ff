/** Sign-up by e-mail and sign-in by OAuth identity over the tables `users` and `oauth_accounts`. */
module Accounts {
  import opened Tables
  import opened Wrappers

  datatype Provider = Google | GitHub

  datatype User = User(
    email: string,
    verified: bool,
    name: Option<string>,
    avatar: Option<string>,
    password: Option<string>,
    customer: Option<string>,
    deleted: bool)

  // `user` is the linked user's row number; rows are never removed here.
  datatype Link = Link(user: nat, provider: Provider, account: string)

  datatype Info = Info(
    provider: Provider,
    account: string,
    email: string,
    verified: bool,
    name: Option<string>,
    picture: Option<string>)

  datatype Db = Db(users: seq<User>, links: seq<Link>)

  // ---------- Lookups ----------

  function HasEmail(email: string): User -> bool {
    (u: User) => u.email == email
  }

  function FindEmail(users: seq<User>, email: string): (r: Option<nat>)
    ensures r.Some? ==> r.value < |users| && users[r.value].email == email
    ensures r.None? ==> forall i :: 0 <= i < |users| ==> users[i].email != email
  {
    var r := Find(users, HasEmail(email));
    assert r.None? ==> forall i :: 0 <= i < |users| ==> !HasEmail(email)(users[i]);
    r
  }

  predicate Names(l: Link, provider: Provider, account: string) {
    l.provider == provider && l.account == account
  }

  function FindLink(links: seq<Link>, provider: Provider, account: string): (r: Option<nat>)
    ensures r.Some? ==> r.value < |links| && Names(links[r.value], provider, account)
    ensures r.None? ==> forall i :: 0 <= i < |links| ==> !Names(links[i], provider, account)
  {
    var named := (l: Link) => Names(l, provider, account);
    var r := Find(links, named);
    assert r.None? ==> forall i :: 0 <= i < |links| ==> !named(links[i]);
    r
  }

  // ---------- The two operations ----------

  function Signup(db: Db, email: string, hash: string, name: Option<string>, customer: Option<string>): Option<Db> {
    if FindEmail(db.users, email).Some? then None
    else Some(db.(users := db.users + [User(email, false, name, None, Some(hash), customer, false)]))
  }

  // Neither a missing text nor an empty one counts as set.
  predicate IsSet(o: Option<string>) {
    o.Some? && o.value != ""
  }

  // The updates that the row `was` calls for, applied to the row u.
  function Merge(u: User, was: User, info: Info): User {
    u.(name := if IsSet(info.name) && !IsSet(was.name) then info.name else u.name,
       avatar := if IsSet(info.picture) && !IsSet(was.avatar) then info.picture else u.avatar,
       verified := u.verified || info.verified)
  }

  function WithMerged(db: Db, u: nat, was: User, info: Info): Db
    requires u < |db.users|
  {
    db.(users := db.users[u := Merge(db.users[u], was, info)])
  }

  function WithLink(db: Db, u: nat, info: Info): Db {
    db.(links := db.links + [Link(u, info.provider, info.account)])
  }

  function WithUser(db: Db, info: Info, customer: Option<string>): Db {
    db.(users := db.users + [User(info.email, info.verified, info.name, info.picture, None, customer, false)])
  }

  /** What a sign-in that read the tables as `seen` does to the tables as they are now: the new
      tables and the user, or None when the unique e-mail column refuses the new row. */
  function SignIn(db: Db, seen: Db, info: Info, customer: Option<string>): Option<(Db, nat)>
    requires WellFormed(seen) && Extends(seen, db)
  {
    var link := FindLink(seen.links, info.provider, info.account);
    var owner := FindEmail(seen.users, info.email);
    if link.Some? then
      var u := seen.links[link.value].user;
      Some((WithMerged(db, u, seen.users[u], info), u))
    else if owner.Some? then
      var u := owner.value;
      Some((WithMerged(WithLink(db, u, info), u, seen.users[u], info), u))
    else if FindEmail(db.users, info.email).Some? then None
    else Some((WithLink(WithUser(db, info, customer), |db.users|, info), |db.users|))
  }

  // ---------- The tables' invariant and what may change ----------

  ghost predicate EmailsUnique(db: Db) {
    forall i, j :: 0 <= i < j < |db.users| ==> db.users[i].email != db.users[j].email
  }

  ghost predicate IdentitiesUnique(db: Db) {
    forall i, j :: 0 <= i < j < |db.links| ==> !Names(db.links[i], db.links[j].provider, db.links[j].account)
  }

  predicate LinksResolve(db: Db) {
    forall i :: 0 <= i < |db.links| ==> db.links[i].user < |db.users|
  }

  ghost predicate WellFormed(db: Db) {
    EmailsUnique(db) && IdentitiesUnique(db) && LinksResolve(db)
  }

  /** A row changes only from empty to set and from unverified to verified. */
  predicate Filled(a: User, b: User) {
    && a.email == b.email && a.password == b.password && a.customer == b.customer
    && (a.verified ==> b.verified)
    && (IsSet(a.name) ==> b.name == a.name)
    && (IsSet(a.avatar) ==> b.avatar == a.avatar)
    && (a.deleted ==> b.deleted)
  }

  // A reported text that is there and not empty takes the place of one that is missing or empty.
  function Filling(was: Option<string>, reported: Option<string>): Option<string> {
    match (was, reported)
    case (Some(text), _) => if text != "" then was else if reported.GetOr("") != "" then reported else was
    case (None, _) => if reported.GetOr("") != "" then reported else was
  }

  /** What a sign-in makes of a row: a report fills an empty name and avatar and may verify the e-mail. */
  predicate Reported(was: User, info: Info, now: User) {
    && now.email == was.email && now.password == was.password && now.customer == was.customer
    && now.deleted == was.deleted && (now.verified <==> was.verified || info.verified)
    && now.name == Filling(was.name, info.name) && now.avatar == Filling(was.avatar, info.picture)
  }

  /** A sign-in changes only its user: a new row as reported, or an old one as the report fills it. */
  predicate UserReported(before: seq<User>, after: seq<User>, user: nat, info: Info, customer: Option<string>) {
    && (forall i :: 0 <= i < |before| && i != user ==> i < |after| && after[i] == before[i])
    && if user < |before| then |after| == |before| && Reported(before[user], info, after[user])
       else
         && |after| == |before| + 1 && user == |before|
         && after[user] == User(info.email, info.verified, info.name, info.picture, None, customer, false)
  }

  /** b has all of a's rows, links unchanged and users at most filled. */
  ghost predicate Extends(a: Db, b: Db) {
    && |a.users| <= |b.users| && a.links <= b.links
    && forall i :: 0 <= i < |a.users| ==> Filled(a.users[i], b.users[i])
  }

  lemma ExtendsTransitive(a: Db, b: Db, c: Db)
    requires Extends(a, b) && Extends(b, c)
    ensures Extends(a, c)
  {
    forall i | 0 <= i < |a.users|
      ensures Filled(a.users[i], c.users[i])
    {
      assert Filled(a.users[i], b.users[i]) && Filled(b.users[i], c.users[i]);
    }
  }

  class AuthService {
    var users: seq<User>
    var links: seq<Link>

    ghost function Tables(): Db
      reads this
    {
      Db(users, links)
    }

    /** Adds one unverified user, unless the e-mail is taken, deleted accounts' e-mails included. */
    method EmailSignup(email: string, hash: string, name: Option<string>, customer: Option<string>)
      returns (user: Option<nat>)
      requires WellFormed(Tables())
      modifies this
      ensures WellFormed(Tables()) && Extends(old(Tables()), Tables()) && links == old(links)
      ensures user.None? <==> exists i :: 0 <= i < |old(users)| && old(users)[i].email == email
      ensures user.None? ==> users == old(users)
      ensures user.Some? ==> user.value == |old(users)|
      ensures user.Some? ==> Signup(old(Tables()), email, hash, name, customer) == Some(Tables())
      ensures user.Some? ==>
                && |users| == |old(users)| + 1 && users[..|old(users)|] == old(users)
                && var u := users[user.value];
                   && u.email == email && !u.verified && !u.deleted && u.name == name && u.avatar == None
                   && u.password == Some(hash) && u.customer == customer
    {
      var existing := FindEmail(users, email);
      if existing.Some? {
        return None;
      }
      user := Some(|users|);
      users := users + [User(email, false, name, None, Some(hash), None, false)];
      if customer.Some? {
        users := users[user.value := users[user.value].(customer := customer)];
      }
      assert users == old(users) + [User(email, false, name, None, Some(hash), customer, false)];
    }

    /** Returns the identity's user; links it to the e-mail's user, or to a new one, if it has none. */
    method OauthAuthenticate(info: Info, customer: Option<string>) returns (user: nat)
      requires WellFormed(Tables())
      modifies this
      ensures SignIn(old(Tables()), old(Tables()), info, customer) == Some((Tables(), user))
      ensures WellFormed(Tables()) && Extends(old(Tables()), Tables())
      ensures user < |users| && Link(user, info.provider, info.account) in links
      ensures (forall l :: l in old(links) ==> !Names(l, info.provider, info.account)) ==>
          users[user].email == info.email
      ensures users[user].deleted ==> user < |old(users)| && old(users)[user].deleted
      ensures UserReported(old(users), users, user, info, customer)
    {
      var existing := FindLink(links, info.provider, info.account);
      if existing.Some? {
        user := links[existing.value].user;
        users := users[user := Merge(users[user], users[user], info)];
        SignInFacts(old(Tables()), info, customer);
        return;
      }
      var owner := FindEmail(users, info.email);
      if owner.Some? {
        user := owner.value;
        links := links + [Link(user, info.provider, info.account)];
        users := users[user := Merge(users[user], users[user], info)];
        SignInFacts(old(Tables()), info, customer);
        return;
      }
      user := |users|;
      users := users + [User(info.email, info.verified, info.name, info.picture, None, None, false)];
      links := links + [Link(user, info.provider, info.account)];
      if customer.Some? {
        users := users[user := users[user].(customer := customer)];
      }
      assert users == old(users) + [User(info.email, info.verified, info.name, info.picture, None, customer, false)];
      SignInFacts(old(Tables()), info, customer);
    }
  }

  lemma MergedGrows(db: Db, u: nat, info: Info)
    requires WellFormed(db) && u < |db.users|
    ensures WellFormed(WithMerged(db, u, db.users[u], info)) && Extends(db, WithMerged(db, u, db.users[u], info))
  {
  }

  lemma SignInGrows(db: Db, info: Info, customer: Option<string>)
    requires WellFormed(db)
    ensures SignIn(db, db, info, customer).Some?
    ensures var db' := SignIn(db, db, info, customer).value.0;
            WellFormed(db') && Extends(db, db')
  {
    var link := FindLink(db.links, info.provider, info.account);
    var owner := FindEmail(db.users, info.email);
    if link.Some? {
      MergedGrows(db, db.links[link.value].user, info);
    } else if owner.Some? {
      var linked := WithLink(db, owner.value, info);
      MergedGrows(linked, owner.value, info);
      ExtendsTransitive(db, linked, WithMerged(linked, owner.value, linked.users[owner.value], info));
    } else {
      var added := WithUser(db, info, customer);
      ExtendsTransitive(db, added, WithLink(added, |db.users|, info));
    }
  }

  lemma SignInFacts(db: Db, info: Info, customer: Option<string>)
    requires WellFormed(db)
    ensures SignIn(db, db, info, customer).Some?
    ensures var (db', user) := SignIn(db, db, info, customer).value;
            && WellFormed(db') && Extends(db, db')
            && user < |db'.users| && Link(user, info.provider, info.account) in db'.links
            && ((forall l :: l in db.links ==> !Names(l, info.provider, info.account)) ==>
                  db'.users[user].email == info.email)
            && (db'.users[user].deleted ==> user < |db.users| && db.users[user].deleted)
            && UserReported(db.users, db'.users, user, info, customer)
  {
    SignInGrows(db, info, customer);
    SignInLinks(db, info, customer);
  }

  lemma SignInLinks(db: Db, info: Info, customer: Option<string>)
    requires WellFormed(db)
    ensures SignIn(db, db, info, customer).Some?
    ensures var (db1, user) := SignIn(db, db, info, customer).value;
            user < |db1.users| && Link(user, info.provider, info.account) in db1.links
  {
    var (db1, user) := SignIn(db, db, info, customer).value;
    var found := FindLink(db.links, info.provider, info.account);
    if found.Some? {
      assert db1.links[found.value] == Link(user, info.provider, info.account);
    } else {
      assert db1.links[|db.links|] == Link(user, info.provider, info.account);
    }
  }

  // ---------- Whole runs ----------

  // `Delete` is the soft delete of an account.
  datatype Event =
    | DoSignup(email: string, hash: string, name: Option<string>, signupCustomer: Option<string>)
    | DoSignIn(info: Info, customer: Option<string>)
    | Delete(user: nat)

  function Next(db: Db, e: Event): Db
    requires WellFormed(db)
  {
    match e
    case DoSignup(email, hash, name, customer) => Signup(db, email, hash, name, customer).GetOr(db)
    case DoSignIn(info, customer) => SignIn(db, db, info, customer).GetOr((db, 0)).0
    case Delete(user) =>
      if user < |db.users| then db.(users := db.users[user := db.users[user].(deleted := true)]) else db
  }

  lemma StepGrows(db: Db, e: Event)
    requires WellFormed(db)
    ensures WellFormed(Next(db, e)) && Extends(db, Next(db, e))
    ensures e.DoSignup? && (forall u :: u in db.users ==> u.email != e.email) ==>
              var added := User(e.email, false, e.name, None, Some(e.hash), e.signupCustomer, false);
              Next(db, e).users == db.users + [added]
    ensures e.Delete? && e.user < |db.users| ==> Next(db, e).users[e.user].deleted
  {
    if e.DoSignIn? {
      SignInGrows(db, e.info, e.customer);
    }
  }

  ghost function Run(db: Db, events: seq<Event>): (r: Db)
    requires WellFormed(db)
    ensures WellFormed(r)
    decreases |events|
  {
    if events == [] then db
    else
      StepGrows(db, events[0]);
      Run(Next(db, events[0]), events[1..])
  }

  /** Over any run e-mails stay unique, each identity belongs to one user, links are never moved and
      users are at most filled in. */
  lemma {:induction false} RunGrows(db: Db, events: seq<Event>)
    requires WellFormed(db)
    ensures EmailsUnique(Run(db, events)) && IdentitiesUnique(Run(db, events)) && Extends(db, Run(db, events))
    decreases |events|
  {
    if events != [] {
      StepGrows(db, events[0]);
      RunGrows(Next(db, events[0]), events[1..]);
      ExtendsTransitive(db, Next(db, events[0]), Run(db, events));
    }
  }

  lemma VerifiedStep(db: Db, e: Event, i: nat)
    requires WellFormed(db) && i < |Next(db, e).users| && Next(db, e).users[i].verified
    requires i < |db.users| ==> !db.users[i].verified
    ensures e.DoSignIn? && e.info.verified && SignIn(db, db, e.info, e.customer).GetOr((db, 0)).1 == i
  {
  }

  /** An e-mail is verified only by a provider: a user that a run leaves verified and that was not so before
      signed in during the run with an identity reported as verified. */
  lemma {:induction false} VerifiedByReport(db: Db, events: seq<Event>, i: nat) returns (k: nat)
    requires WellFormed(db) && i < |Run(db, events).users| && Run(db, events).users[i].verified
    requires i < |db.users| ==> !db.users[i].verified
    ensures k < |events| && events[k].DoSignIn? && events[k].info.verified
    ensures var before := Run(db, events[..k]);
            SignIn(before, before, events[k].info, events[k].customer).GetOr((before, 0)).1 == i
    decreases |events|
  {
    var next := Next(db, events[0]);
    StepGrows(db, events[0]);
    if i < |next.users| && next.users[i].verified {
      k := 0;
      VerifiedStep(db, events[0], i);
      assert Run(db, events[..0]) == db;
    } else {
      var rest := VerifiedByReport(next, events[1..], i);
      k := rest + 1;
      assert events[..k][1..] == events[1..][..rest];
    }
  }

  /** An identity that has signed in once signs in as the same user after any run, whatever e-mail,
      name or picture its provider reports by then, and adds no row. */
  lemma IdentityIsStable(db: Db, first: Info, c1: Option<string>, events: seq<Event>, again: Info, c2: Option<string>)
    requires WellFormed(db) && first.provider == again.provider && first.account == again.account
    ensures var signedIn := SignIn(db, db, first, c1).value;
            && WellFormed(signedIn.0)
            && var later := Run(signedIn.0, events);
               var repeated := SignIn(later, later, again, c2).value;
               && repeated.1 == signedIn.1
               && repeated.0.links == later.links && |repeated.0.users| == |later.users|
  {
    SignInLinks(db, first, c1);
    var (db1, user) := SignIn(db, db, first, c1).value;
    StepGrows(db, DoSignIn(first, c1));
    assert db1 == Next(db, DoSignIn(first, c1));
    var later := Run(db1, events);
    RunGrows(db1, events);
    var l := Link(user, first.provider, first.account);
    var i :| 0 <= i < |db1.links| && db1.links[i] == l;
    assert later.links[i] == l;
    LinkedSignIn(later, again, c2, i);
  }

  lemma LinkedSignIn(db: Db, info: Info, customer: Option<string>, i: nat)
    requires WellFormed(db) && i < |db.links| && Names(db.links[i], info.provider, info.account)
    ensures var r := SignIn(db, db, info, customer);
            r.Some? && r.value.1 == db.links[i].user && r.value.0.links == db.links && |r.value.0.users| == |db.users|
  {
    var k := FindLink(db.links, info.provider, info.account);
    assert k == Some(i);
  }

  /** An e-mail that an account has ever used is refused to every later sign-up, also when the
      account has been soft-deleted. */
  lemma UsedEmailIsRefused(db: Db, user: nat, events: seq<Event>, hash: string, name: Option<string>,
    customer: Option<string>)
    requires WellFormed(db) && user < |db.users|
    ensures Signup(Run(db, events), db.users[user].email, hash, name, customer) == None
  {
    RunGrows(db, events);
    assert Filled(db.users[user], Run(db, events).users[user]);
  }

  // ---------- Two sign-ins at once ----------

  /** A sign-in that read the tables before other requests changed them keeps every identity with
      one user unless one of those requests linked its identity and the e-mail column lets the new
      row in: then, and only then, the identity has two links. No constraint on `oauth_accounts`
      forbids it. */
  lemma LateSignInKeepsIdentitiesIff(seen: Db, events: seq<Event>, info: Info, customer: Option<string>)
    requires WellFormed(seen)
    ensures var db := Run(seen, events);
            Extends(seen, db) &&
            (match SignIn(db, seen, info, customer)
             case None => true
             case Some(r) =>
               EmailsUnique(r.0) &&
               (IdentitiesUnique(r.0) <==>
                (FindLink(seen.links, info.provider, info.account).Some? ||
                 FindLink(db.links, info.provider, info.account).None?)))
  {
    var db := Run(seen, events);
    RunGrows(seen, events);
    var result := SignIn(db, seen, info, customer);
    if result.Some? {
      var out := result.value.0;
      var taken := FindLink(db.links, info.provider, info.account);
      if FindLink(seen.links, info.provider, info.account).None? && taken.Some? {
        assert !IdentitiesUnique(out) by {
          var j := |db.links|;
          assert Names(out.links[taken.value], out.links[j].provider, out.links[j].account);
        }
      }
    }
  }

  // The user that the sign-in found in the tables it read.
  function Found(seen: Db, info: Info): Option<nat>
    requires LinksResolve(seen)
  {
    var link := FindLink(seen.links, info.provider, info.account);
    if link.Some? then Some(seen.links[link.value].user) else FindEmail(seen.users, info.email)
  }

  // The sign-in writes a text over a different one that was set after the row was read.
  predicate Overwrites(now: Option<string>, read: Option<string>, reported: Option<string>) {
    IsSet(reported) && !IsSet(read) && IsSet(now) && now != reported
  }

  /** Such a late sign-in only fills in, as one alone does, if and only if neither the name nor the avatar
      it reports goes over one that another request set meanwhile. */
  lemma LateSignInOnlyFillsIff(seen: Db, events: seq<Event>, info: Info, customer: Option<string>)
    requires WellFormed(seen)
    ensures var db := Run(seen, events);
            Extends(seen, db) &&
            (match SignIn(db, seen, info, customer)
             case None => true
             case Some(r) =>
               Extends(db, r.0) <==>
               (Found(seen, info).Some? ==>
                  var u := Found(seen, info).value;
                  && u < |seen.users|
                  && !Overwrites(db.users[u].name, seen.users[u].name, info.name)
                  && !Overwrites(db.users[u].avatar, seen.users[u].avatar, info.picture)))
  {
    var db := Run(seen, events);
    RunGrows(seen, events);
    if Found(seen, info).Some? && SignIn(db, seen, info, customer).Some? {
      var out := SignIn(db, seen, info, customer).value.0;
      var u := Found(seen, info).value;
      assert u < |seen.users| <= |db.users| == |out.users|;
      MergeFillsIff(db.users[u], seen.users[u], info);
      assert Extends(db, out) ==> Filled(db.users[u], out.users[u]);
    }
  }

  lemma MergeFillsIff(u: User, was: User, info: Info)
    ensures Filled(u, Merge(u, was, info)) <==>
            !Overwrites(u.name, was.name, info.name) && !Overwrites(u.avatar, was.avatar, info.picture)
  {
  }

  /** It happens: two first sign-ins of one identity, reporting different e-mails, both read the
      empty tables and leave the identity with two users. */
  lemma IdentityForks(info: Info, other: string)
    requires other != info.email
    ensures var empty := Db([], []);
            && WellFormed(empty) && Extends(empty, Next(empty, DoSignIn(info, None)))
            && var r := SignIn(Next(empty, DoSignIn(info, None)), empty, info.(email := other), None);
               r.Some? &&
               r.value.0.links == [Link(0, info.provider, info.account), Link(1, info.provider, info.account)]
  {
    var empty := Db([], []);
    StepGrows(empty, DoSignIn(info, None));
    var db := Next(empty, DoSignIn(info, None));
    var late := info.(email := other);
    assert FindEmail(empty.users, other).None? && FindLink(empty.links, late.provider, late.account).None?;
    assert FindEmail(db.users, other).None?;
  }
}
