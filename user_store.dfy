/**
 * The account store: the signed-in session, the directory of registered
 * accounts (the browser's `users` entry), the viewer's watchlist, watched
 * list, follow lists and reviews. Clock readings and generated identifiers
 * are parameters (`now`, `newId`).
 */
module UserStore {
  import opened Wrappers
  import opened Seqs
  import opened JsString
  import opened Tmdb

  // ---------------------------------------------------------------------
  // Records
  // ---------------------------------------------------------------------

  /** A registered account as the directory stores it, password included. */
  datatype Account = Account(
    id: string, name: string, email: string, password: string, avatar: string,
    bio: string, favoriteGenres: seq<string>, joinedDate: string, lastLogin: string)

  /** The signed-in user: an account without its password. */
  datatype Session = Session(
    id: string, name: string, email: string, avatar: string,
    bio: string, favoriteGenres: seq<string>, joinedDate: string, lastLogin: string)

  /** The keys an `updateProfile` object may carry; None is a key it leaves out. */
  datatype ProfileUpdate = ProfileUpdate(
    name: Option<string>, email: Option<string>, avatar: Option<string>,
    bio: Option<string>, favoriteGenres: Option<seq<string>>)

  datatype UserRef = UserRef(id: string, name: string)

  datatype WatchlistEntry = WatchlistEntry(movie: MovieItem, addedAt: string, addedBy: string)

  /** A watched movie: the item with the viewer's rating over its own, when it was watched, an empty note, and by whom. */
  datatype WatchedEntry = WatchedEntry(movie: MovieItem, watchedAt: string, review: string, watchedBy: string)

  datatype Comment = Comment(id: string, userId: string, text: string, createdAt: string)

  /** What the review form hands to `addReview`. */
  datatype ReviewDraft = ReviewDraft(text: string, rating: int)

  datatype Review = Review(
    id: string, movieId: int, userId: string, text: string, rating: int,
    createdAt: string, likes: nat, comments: seq<Comment>)

  function EmailOf(a: Account): string { a.email }
  function AccountIdOf(a: Account): string { a.id }
  function RefIdOf(u: UserRef): string { u.id }
  function ListedIdOf(e: WatchlistEntry): int { e.movie.id }
  function WatchedIdOf(e: WatchedEntry): int { e.movie.id }

  /** No two accounts of the directory share an email address. */
  predicate UniqueEmails(directory: seq<Account>) {
    forall i, j | 0 <= i < j < |directory| :: directory[i].email != directory[j].email
  }

  // ---------------------------------------------------------------------
  // Sign-in and sign-up
  // ---------------------------------------------------------------------

  const AvatarPrefix := "https://ui-avatars.com/api/?name="
  const AvatarSuffix := "&background=random"

  /**
   * The generated avatar address for a display name. Whatever the name, the
   * part between the `name=` prefix and the `&background=random` suffix holds
   * no '&', '=' or '#', so a name cannot add or end a query parameter.
   */
  function AvatarFor(name: string): (url: string)
    ensures |url| >= |AvatarPrefix| + |AvatarSuffix|
    ensures url[..|AvatarPrefix|] == AvatarPrefix && url[|url| - |AvatarSuffix|..] == AvatarSuffix
    ensures url[|AvatarPrefix|..|url| - |AvatarSuffix|] == EncodeUriComponent(name)
    ensures forall i | |AvatarPrefix| <= i < |url| - |AvatarSuffix| :: url[i] != '&' && url[i] != '=' && url[i] != '#'
  {
    var encoded := EncodeUriComponent(name);
    EncodedComponentIsSafe(name);
    var url := AvatarPrefix + encoded + AvatarSuffix;
    assert forall i | |AvatarPrefix| <= i < |url| - |AvatarSuffix| :: url[i] == encoded[i - |AvatarPrefix|];
    url
  }

  /** `{...account, password: undefined}` */
  function WithoutPassword(a: Account): Session {
    Session(a.id, a.name, a.email, a.avatar, a.bio, a.favoriteGenres, a.joinedDate, a.lastLogin)
  }

  /** The session `login` opens: an empty avatar replaced by the generated one, and the sign-in time. */
  function LoginSession(a: Account, now: string): (s: Session)
    ensures s.avatar != ""
    ensures s.avatar == (if a.avatar != "" then a.avatar else AvatarFor(a.name)) && s.lastLogin == now
    ensures s.(avatar := a.avatar, lastLogin := a.lastLogin) == WithoutPassword(a)
  {
    WithoutPassword(a).(avatar := if a.avatar != "" then a.avatar else AvatarFor(a.name), lastLogin := now)
  }

  /** Why `login` refuses, if it does: the checks in the order the source makes them. */
  function LoginError(directory: seq<Account>, email: string, password: string): Option<string> {
    if email == "" || password == "" then Some("Please fill in all fields")
    else
      match FirstIndex(directory, EmailOf, email)
      case None => Some("User not found")
      case Some(i) => if directory[i].password != password then Some("Invalid password") else None
  }

  /** With unique emails, sign-in accepts exactly the non-empty credentials of a stored account. */
  lemma LoginAcceptsExactlyStoredCredentials(directory: seq<Account>, email: string, password: string)
    requires UniqueEmails(directory)
    ensures LoginError(directory, email, password).None? <==>
      email != "" && password != "" &&
      exists i | 0 <= i < |directory| :: directory[i].email == email && directory[i].password == password
  {
    var r := FirstIndex(directory, EmailOf, email);
    if email != "" && password != "" {
      if exists i | 0 <= i < |directory| :: directory[i].email == email && directory[i].password == password {
        var i :| 0 <= i < |directory| && directory[i].email == email && directory[i].password == password;
        assert EmailOf(directory[i]) == email;
        assert r.Some?;
      }
    }
  }

  /** Even with duplicate emails, a successful sign-in matched a stored email and password. */
  lemma LoginMatchesSomeAccount(directory: seq<Account>, email: string, password: string)
    requires LoginError(directory, email, password).None?
    ensures email != "" && password != ""
    ensures var i := FirstIndex(directory, EmailOf, email).value;
      directory[i].email == email && directory[i].password == password
  {
  }

  /** The account `register` stores. */
  function NewAccount(name: string, email: string, password: string, newId: string, now: string): Account {
    Account(newId, name, email, password, AvatarFor(name), "", [], now, now)
  }

  /** Why `register` refuses, if it does: the checks in the order the source makes them. */
  function RegisterError(directory: seq<Account>, name: string, email: string, password: string): Option<string> {
    if name == "" || email == "" || password == "" then Some("Please fill in all fields")
    else if Utf16Length(password) < 6 then Some("Password must be at least 6 characters")
    else if !MatchesEmailPattern(email) then Some("Please enter a valid email")
    else if HasKey(directory, EmailOf, email) then Some("Email already registered")
    else None
  }

  /** A successful sign-up stores a well-formed, not yet registered email and keeps emails unique. */
  lemma RegisterKeepsEmailsUnique(directory: seq<Account>, name: string, email: string, password: string, newId: string, now: string)
    requires UniqueEmails(directory)
    requires RegisterError(directory, name, email, password).None?
    ensures MatchesEmailPattern(email) && Utf16Length(password) >= 6 && name != ""
    ensures UniqueEmails(directory + [NewAccount(name, email, password, newId, now)])
  {
    var d := directory + [NewAccount(name, email, password, newId, now)];
    forall i, j | 0 <= i < j < |d| ensures d[i].email != d[j].email {
      if j == |directory| {
        assert EmailOf(directory[i]) != email;
      }
    }
  }

  /** Signing in with the credentials just registered succeeds and opens the sign-up session again, at the new time. */
  lemma RegisterThenLogin(directory: seq<Account>, name: string, email: string, password: string, newId: string, now: string, later: string)
    requires RegisterError(directory, name, email, password).None?
    ensures var d := directory + [NewAccount(name, email, password, newId, now)];
      && LoginError(d, email, password).None?
      && FirstIndex(d, EmailOf, email) == Some(|directory|)
      && LoginSession(d[|directory|], later) == WithoutPassword(NewAccount(name, email, password, newId, now)).(lastLogin := later)
  {
    var d := directory + [NewAccount(name, email, password, newId, now)];
    assert EmailOf(d[|directory|]) == email;
  }

  /** An email that has been registered cannot be registered again. */
  lemma RegisterTwiceRejected(directory: seq<Account>, name: string, email: string, password: string, newId: string, now: string,
                              name2: string, password2: string)
    requires RegisterError(directory, name, email, password).None?
    ensures RegisterError(directory + [NewAccount(name, email, password, newId, now)], name2, email, password2).Some?
  {
    var d := directory + [NewAccount(name, email, password, newId, now)];
    assert EmailOf(d[|directory|]) == email;
  }

  // ---------------------------------------------------------------------
  // Profile edits and account removal
  // ---------------------------------------------------------------------

  /** `{...account, ...updates}` */
  function MergeAccount(a: Account, u: ProfileUpdate): Account {
    a.(name := u.name.GetOr(a.name), email := u.email.GetOr(a.email), avatar := u.avatar.GetOr(a.avatar),
       bio := u.bio.GetOr(a.bio), favoriteGenres := u.favoriteGenres.GetOr(a.favoriteGenres))
  }

  /** `{...user, ...updates}` */
  function MergeSession(s: Session, u: ProfileUpdate): Session {
    s.(name := u.name.GetOr(s.name), email := u.email.GetOr(s.email), avatar := u.avatar.GetOr(s.avatar),
       bio := u.bio.GetOr(s.bio), favoriteGenres := u.favoriteGenres.GetOr(s.favoriteGenres))
  }

  /** Applying the same update twice is applying it once, and the stored account and its session agree on what changed. */
  lemma MergeIdempotent(a: Account, u: ProfileUpdate)
    ensures MergeAccount(MergeAccount(a, u), u) == MergeAccount(a, u)
    ensures MergeSession(WithoutPassword(a), u) == WithoutPassword(MergeAccount(a, u))
    ensures MergeAccount(a, u).password == a.password && MergeAccount(a, u).id == a.id
  {
  }

  /** An update without an email key keeps emails unique and changes nobody's ability to sign in. */
  lemma ProfileEditKeepsCredentials(directory: seq<Account>, i: nat, u: ProfileUpdate, email: string, password: string)
    requires i < |directory| && u.email.None?
    ensures UniqueEmails(directory) ==> UniqueEmails(directory[i := MergeAccount(directory[i], u)])
    ensures LoginError(directory[i := MergeAccount(directory[i], u)], email, password) == LoginError(directory, email, password)
  {
    var d := directory[i := MergeAccount(directory[i], u)];
    assert forall k | 0 <= k < |d| :: EmailOf(d[k]) == EmailOf(directory[k]) && d[k].password == directory[k].password;
    FirstIndexSameKeys(directory, d, email);
  }

  /** Directories with the same emails, position by position, give the same first match. */
  lemma {:induction false} FirstIndexSameKeys(a: seq<Account>, b: seq<Account>, email: string)
    requires |a| == |b|
    requires forall k | 0 <= k < |a| :: EmailOf(a[k]) == EmailOf(b[k])
    ensures FirstIndex(a, EmailOf, email) == FirstIndex(b, EmailOf, email)
  {
    if a != [] {
      FirstIndexSameKeys(a[1..], b[1..], email);
    }
  }

  /** Removing an account keeps emails unique, and its email no longer signs in. */
  lemma DeleteThenLoginFails(directory: seq<Account>, i: nat, password: string)
    requires UniqueEmails(directory) && i < |directory|
    ensures UniqueEmails(RemoveAt(directory, i))
    ensures LoginError(RemoveAt(directory, i), directory[i].email, password).Some?
  {
    var d := RemoveAt(directory, i);
    var e := directory[i].email;
    forall j, k | 0 <= j < k < |d| ensures d[j].email != d[k].email {
      var j', k' := if j < i then j else j + 1, if k < i then k else k + 1;
      assert d[j] == directory[j'] && d[k] == directory[k'];
    }
  }

  // ---------------------------------------------------------------------
  // Reviews
  // ---------------------------------------------------------------------

  /** `reviews.map(r => r.id === reviewId ? {...r, likes: r.likes + 1} : r)` */
  function WithLike(reviews: seq<Review>, reviewId: string): (r: seq<Review>)
    ensures |r| == |reviews|
    ensures forall i | 0 <= i < |reviews| ::
      r[i] == if reviews[i].id == reviewId then reviews[i].(likes := reviews[i].likes + 1) else reviews[i]
  {
    if reviews == [] then []
    else [if reviews[0].id == reviewId then reviews[0].(likes := reviews[0].likes + 1) else reviews[0]]
         + WithLike(reviews[1..], reviewId)
  }

  /** `reviews.map(r => r.id === reviewId ? {...r, comments: [...r.comments, c]} : r)` */
  function WithComment(reviews: seq<Review>, reviewId: string, c: Comment): (r: seq<Review>)
    ensures |r| == |reviews|
    ensures forall i | 0 <= i < |reviews| ::
      r[i] == if reviews[i].id == reviewId then reviews[i].(comments := reviews[i].comments + [c]) else reviews[i]
  {
    if reviews == [] then []
    else [if reviews[0].id == reviewId then reviews[0].(comments := reviews[0].comments + [c]) else reviews[0]]
         + WithComment(reviews[1..], reviewId, c)
  }

  /** The sum of the like counts of a list of reviews. */
  function TotalLikes(reviews: seq<Review>): nat {
    if reviews == [] then 0 else reviews[0].likes + TotalLikes(reviews[1..])
  }

  /** How many reviews carry the identifier. */
  function CountWithId(reviews: seq<Review>, reviewId: string): nat {
    if reviews == [] then 0 else (if reviews[0].id == reviewId then 1 else 0) + CountWithId(reviews[1..], reviewId)
  }

  /** A like adds one to every review carrying the identifier and nothing anywhere else, so likes are never lost. */
  lemma {:induction false} LikeAddsOnePerMatch(reviews: seq<Review>, reviewId: string)
    ensures TotalLikes(WithLike(reviews, reviewId)) == TotalLikes(reviews) + CountWithId(reviews, reviewId)
    ensures forall i | 0 <= i < |reviews| :: WithLike(reviews, reviewId)[i].likes >= reviews[i].likes
  {
    if reviews != [] {
      LikeAddsOnePerMatch(reviews[1..], reviewId);
      assert WithLike(reviews, reviewId)[1..] == WithLike(reviews[1..], reviewId);
    }
  }

  /** A comment goes last on the matching reviews, after all the earlier comments, and leaves likes and text alone. */
  lemma CommentAppendsLast(reviews: seq<Review>, reviewId: string, c: Comment, i: int)
    requires 0 <= i < |reviews| && reviews[i].id == reviewId
    ensures var r := WithComment(reviews, reviewId, c)[i];
      && |r.comments| == |reviews[i].comments| + 1 && r.comments[|r.comments| - 1] == c
      && r.comments[..|reviews[i].comments|] == reviews[i].comments
      && r.likes == reviews[i].likes && r.text == reviews[i].text
  {
    var r := WithComment(reviews, reviewId, c)[i];
    assert r.comments == reviews[i].comments + [c];
  }

  // ---------------------------------------------------------------------
  // Watched ratings
  // ---------------------------------------------------------------------

  /** `watchedMovies.map(m => m.id === movieId ? {...m, userRating: rating} : m)` */
  function WithWatchedRating(watched: seq<WatchedEntry>, movieId: int, rating: int): (r: seq<WatchedEntry>)
    ensures |r| == |watched|
    ensures forall i | 0 <= i < |watched| ::
      r[i] == if watched[i].movie.id == movieId then watched[i].(movie := watched[i].movie.(userRating := Some(rating))) else watched[i]
  {
    if watched == [] then []
    else [if watched[0].movie.id == movieId then watched[0].(movie := watched[0].movie.(userRating := Some(rating))) else watched[0]]
         + WithWatchedRating(watched[1..], movieId, rating)
  }

  /** Re-rating keeps the list of watched identifiers as it was. */
  lemma RatingKeepsWatchedIds(watched: seq<WatchedEntry>, movieId: int, rating: int, id: int)
    ensures HasKey(WithWatchedRating(watched, movieId, rating), WatchedIdOf, id) <==> HasKey(watched, WatchedIdOf, id)
  {
    var r := WithWatchedRating(watched, movieId, rating);
    assert forall i | 0 <= i < |watched| :: WatchedIdOf(r[i]) == WatchedIdOf(watched[i]);
  }

  // ---------------------------------------------------------------------
  // The store
  // ---------------------------------------------------------------------

  class Store {
    var user: Option<Session>
    var isAuthenticated: bool
    var isLoading: bool
    var error: Option<string>
    var watchlist: seq<WatchlistEntry>
    var watchedMovies: seq<WatchedEntry>
    var followers: seq<UserRef>
    var following: seq<UserRef>
    var recommendations: seq<MovieItem>
    var reviews: seq<Review>
    /** The registered accounts kept in the browser's storage. */
    var directory: seq<Account>

    /** Signed in exactly when there is a session. */
    ghost predicate Valid()
      reads this
    {
      isAuthenticated <==> user.Some?
    }

    /** A signed-out store over the accounts found in storage. */
    constructor (accounts: seq<Account>)
      ensures Valid() && user == None && !isLoading && error == None
      ensures watchlist == [] && watchedMovies == [] && followers == [] && following == []
      ensures recommendations == [] && reviews == [] && directory == accounts
    {
      user, isAuthenticated, isLoading, error := None, false, false, None;
      watchlist, watchedMovies, followers, following := [], [], [], [];
      recommendations, reviews, directory := [], [], accounts;
    }

    /** `login(email, password)` */
    method Login(email: string, password: string, now: string) returns (ok: bool)
      requires Valid()
      modifies this`user, this`isAuthenticated, this`isLoading, this`error
      ensures Valid() && !isLoading
      ensures ok <==> LoginError(directory, email, password).None?
      ensures ok ==> user == Some(LoginSession(directory[FirstIndex(directory, EmailOf, email).value], now)) && error == None
      ensures !ok ==> user == old(user) && error == LoginError(directory, email, password)
    {
      isLoading, error := true, None;
      var failure := LoginError(directory, email, password);
      if failure.Some? {
        error, isLoading := failure, false;
        return false;
      }
      var i := FirstIndex(directory, EmailOf, email).value;
      user, isAuthenticated := Some(LoginSession(directory[i], now)), true;
      isLoading, error := false, None;
      return true;
    }

    /** `register(name, email, password)` */
    method Register(name: string, email: string, password: string, newId: string, now: string) returns (ok: bool)
      requires Valid()
      modifies this`directory, this`user, this`isAuthenticated, this`isLoading, this`error
      ensures Valid() && !isLoading
      ensures ok <==> RegisterError(old(directory), name, email, password).None?
      ensures ok ==> (directory == old(directory) + [NewAccount(name, email, password, newId, now)]
        && user == Some(WithoutPassword(NewAccount(name, email, password, newId, now))) && error == None)
      ensures !ok ==> (directory == old(directory) && user == old(user)
        && error == RegisterError(old(directory), name, email, password))
    {
      isLoading, error := true, None;
      var failure := RegisterError(directory, name, email, password);
      if failure.Some? {
        error, isLoading := failure, false;
        return false;
      }
      var account := NewAccount(name, email, password, newId, now);
      directory := directory + [account];
      user, isAuthenticated := Some(WithoutPassword(account)), true;
      isLoading, error := false, None;
      return true;
    }

    /** `logout()`: the session and the viewer's lists go; the directory stays. */
    method Logout()
      modifies this`user, this`isAuthenticated, this`watchlist, this`watchedMovies, this`followers,
               this`following, this`reviews, this`recommendations
      ensures Valid() && user == None
      ensures watchlist == [] && watchedMovies == [] && followers == [] && following == []
      ensures reviews == [] && recommendations == []
    {
      user, isAuthenticated := None, false;
      watchlist, watchedMovies, followers, following := [], [], [], [];
      reviews, recommendations := [], [];
    }

    /** `updateProfile(updates)`: the stored account found by the session's id and the session both take the update. */
    method UpdateProfile(updates: ProfileUpdate) returns (ok: bool)
      requires Valid()
      modifies this`directory, this`user, this`error
      ensures Valid()
      ensures old(user).None? ==> !ok && error == Some("Not authenticated") && directory == old(directory) && user == old(user)
      ensures old(user).Some? && FirstIndex(old(directory), AccountIdOf, old(user).value.id).None? ==>
        !ok && error == Some("User not found") && directory == old(directory) && user == old(user)
      ensures old(user).Some? && FirstIndex(old(directory), AccountIdOf, old(user).value.id).Some? ==>
        var i := FirstIndex(old(directory), AccountIdOf, old(user).value.id).value;
        && ok && error == old(error)
        && directory == old(directory)[i := MergeAccount(old(directory)[i], updates)]
        && user == Some(MergeSession(old(user).value, updates))
    {
      if user.None? {
        error := Some("Not authenticated");
        return false;
      }
      var found := FirstIndex(directory, AccountIdOf, user.value.id);
      if found.None? {
        error := Some("User not found");
        return false;
      }
      var i := found.value;
      directory := directory[i := MergeAccount(directory[i], updates)];
      user := Some(MergeSession(user.value, updates));
      return true;
    }

    /** `deleteAccount(password)`: the account found by the session's id goes if the password matches, then `logout`. */
    method DeleteAccount(password: string) returns (ok: bool)
      requires Valid()
      modifies this`directory, this`error, this`user, this`isAuthenticated, this`watchlist, this`watchedMovies,
               this`followers, this`following, this`reviews, this`recommendations
      ensures Valid()
      ensures old(user).None? ==> !ok && error == Some("Not authenticated") && directory == old(directory) && user == old(user)
      ensures old(user).Some? && FirstIndex(old(directory), AccountIdOf, old(user).value.id).None? ==>
        !ok && error == Some("User not found") && directory == old(directory) && user == old(user)
      ensures old(user).Some? && FirstIndex(old(directory), AccountIdOf, old(user).value.id).Some? ==>
        var i := FirstIndex(old(directory), AccountIdOf, old(user).value.id).value;
        if old(directory)[i].password != password then
          !ok && error == Some("Invalid password") && directory == old(directory) && user == old(user)
        else
          ok && directory == RemoveAt(old(directory), i) && user == None && error == old(error)
          && watchlist == [] && watchedMovies == [] && followers == [] && following == []
          && reviews == [] && recommendations == []
      ensures !ok ==>
        && watchlist == old(watchlist) && watchedMovies == old(watchedMovies) && followers == old(followers)
        && following == old(following) && reviews == old(reviews) && recommendations == old(recommendations)
    {
      if user.None? {
        error := Some("Not authenticated");
        return false;
      }
      var found := FirstIndex(directory, AccountIdOf, user.value.id);
      if found.None? {
        error := Some("User not found");
        return false;
      }
      var i := found.value;
      if directory[i].password != password {
        error := Some("Invalid password");
        return false;
      }
      directory := RemoveAt(directory, i);
      Logout();
      return true;
    }

    /** `followUser(userToFollow)` */
    method FollowUser(u: UserRef)
      modifies this`following
      ensures following == old(following) + [u]
    {
      following := following + [u];
    }

    /** `unfollowUser(userId)` */
    method UnfollowUser(userId: string)
      modifies this`following
      ensures following == FilterOut(old(following), RefIdOf, userId)
      ensures !HasKey(following, RefIdOf, userId)
    {
      following := FilterOut(following, RefIdOf, userId);
    }

    /** `addReview(movieId, review)`: reading the session's id fails without a session. */
    method AddReview(movieId: int, draft: ReviewDraft, newId: string, now: string)
      requires user.Some?
      modifies this`reviews
      ensures reviews == old(reviews) + [Review(newId, movieId, user.value.id, draft.text, draft.rating, now, 0, [])]
    {
      reviews := reviews + [Review(newId, movieId, user.value.id, draft.text, draft.rating, now, 0, [])];
    }

    /** `likeReview(reviewId)` */
    method LikeReview(reviewId: string)
      modifies this`reviews
      ensures reviews == WithLike(old(reviews), reviewId)
    {
      reviews := WithLike(reviews, reviewId);
    }

    /** `addComment(reviewId, comment)`: the session's id is read only for a matching review. */
    method AddComment(reviewId: string, text: string, newId: string, now: string)
      requires user.Some? || !exists i | 0 <= i < |reviews| :: reviews[i].id == reviewId
      modifies this`reviews
      ensures user.Some? ==> reviews == WithComment(old(reviews), reviewId, Comment(newId, user.value.id, text, now))
      ensures user.None? ==> reviews == old(reviews)
    {
      var author := if user.Some? then user.value.id else "";
      ghost var before := reviews;
      reviews := WithComment(reviews, reviewId, Comment(newId, author, text, now));
      if user.None? {
        assert forall i | 0 <= i < |before| :: reviews[i] == before[i];
      }
    }

    /** `updateFavoriteGenres(genres)` on a signed-in store. */
    method UpdateFavoriteGenres(genres: seq<string>)
      requires user.Some?
      modifies this`user
      ensures user == Some(old(user).value.(favoriteGenres := genres))
    {
      user := Some(user.value.(favoriteGenres := genres));
    }

    /** `addToWatchlist(movie)`: appended even when already listed; the dialog checks first. */
    method AddToWatchlist(movie: MovieItem, now: string)
      requires user.Some?
      modifies this`watchlist
      ensures watchlist == old(watchlist) + [WatchlistEntry(movie, now, user.value.id)]
      ensures IsInWatchlist(movie.id)
    {
      watchlist := watchlist + [WatchlistEntry(movie, now, user.value.id)];
      assert ListedIdOf(watchlist[|watchlist| - 1]) == movie.id;
    }

    /** `removeFromWatchlist(movieId)` */
    method RemoveFromWatchlist(movieId: int)
      modifies this`watchlist
      ensures watchlist == FilterOut(old(watchlist), ListedIdOf, movieId)
      ensures !IsInWatchlist(movieId)
    {
      watchlist := FilterOut(watchlist, ListedIdOf, movieId);
    }

    /** `addToWatched(movie, rating)`: recorded as watched and taken off the watchlist. */
    method AddToWatched(movie: MovieItem, rating: Option<int>, now: string)
      requires user.Some?
      modifies this`watchedMovies, this`watchlist
      ensures watchedMovies == old(watchedMovies) + [WatchedEntry(movie.(userRating := rating), now, "", user.value.id)]
      ensures watchlist == FilterOut(old(watchlist), ListedIdOf, movie.id)
      ensures IsWatched(movie.id) && !IsInWatchlist(movie.id)
    {
      watchedMovies := watchedMovies + [WatchedEntry(movie.(userRating := rating), now, "", user.value.id)];
      watchlist := FilterOut(watchlist, ListedIdOf, movie.id);
      assert WatchedIdOf(watchedMovies[|watchedMovies| - 1]) == movie.id;
    }

    /** `removeFromWatched(movieId)` */
    method RemoveFromWatched(movieId: int)
      modifies this`watchedMovies
      ensures watchedMovies == FilterOut(old(watchedMovies), WatchedIdOf, movieId)
      ensures !IsWatched(movieId)
    {
      watchedMovies := FilterOut(watchedMovies, WatchedIdOf, movieId);
    }

    /** `updateMovieRating(movieId, rating)` */
    method UpdateMovieRating(movieId: int, rating: int)
      modifies this`watchedMovies
      ensures watchedMovies == WithWatchedRating(old(watchedMovies), movieId, rating)
    {
      watchedMovies := WithWatchedRating(watchedMovies, movieId, rating);
    }

    /** `isInWatchlist(movieId)` */
    predicate IsInWatchlist(movieId: int)
      reads this
    {
      HasKey(watchlist, ListedIdOf, movieId)
    }

    /** `isWatched(movieId)` */
    predicate IsWatched(movieId: int)
      reads this
    {
      HasKey(watchedMovies, WatchedIdOf, movieId)
    }
  }

  /**
   * Sign up, sign out and sign in again with the same credentials on a store
   * with no accounts: both calls succeed and the second session is the first
   * one at the new time.
   */
  method SignUpAndBackIn(name: string, email: string, password: string, newId: string, now: string, later: string)
    returns (first: Option<Session>, second: Option<Session>)
    requires RegisterError([], name, email, password).None?
    ensures first.Some? && second == Some(first.value.(lastLogin := later))
  {
    var store := new Store([]);
    var ok := store.Register(name, email, password, newId, now);
    first := store.user;
    store.Logout();
    RegisterThenLogin([], name, email, password, newId, now, later);
    ok := store.Login(email, password, later);
    second := store.user;
  }
}
