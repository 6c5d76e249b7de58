/**
 * favorite/service/FavoriteService.java with its `Favorite` entity: a user's
 * bookmarked destination accounts.  A user holds at most 50 favorites, never
 * the same account number twice and never their own account; only the owner
 * may read, edit or delete a favorite.  The signed-in user is the parameter
 * `email`.
 */
module Favorites {
  import opened Base
  import Users
  import Accounts

  const MaxFavorites: nat := 50

  /** A favorite as the response shows it. */
  datatype FavoriteView = FavoriteView(
    id: nat, accountNumber: string, accountOwnerName: string,
    nickname: Option<string>, memo: Option<string>)

  class Favorite {
    const id: nat
    const owner: UserId
    const accountNumber: string
    const accountOwnerName: string
    var nickname: Option<string>
    var memo: Option<string>

    function View(): (v: FavoriteView)
      reads this
      ensures v.id == id && v.accountNumber == accountNumber && v.nickname == nickname && v.memo == memo
    {
      FavoriteView(id, accountNumber, accountOwnerName, nickname, memo)
    }

    constructor (id: nat, owner: UserId, accountNumber: string, accountOwnerName: string,
                 nickname: Option<string>, memo: Option<string>)
      ensures this.id == id && this.owner == owner && this.accountNumber == accountNumber
      ensures this.accountOwnerName == accountOwnerName
      ensures this.nickname == nickname && this.memo == memo
    {
      this.id := id;
      this.owner := owner;
      this.accountNumber := accountNumber;
      this.accountOwnerName := accountOwnerName;
      this.nickname := nickname;
      this.memo := memo;
    }

    method UpdateNickname(nickname: string)
      modifies this`nickname
      ensures this.nickname == Some(nickname)
    {
      this.nickname := Some(nickname);
    }

    method UpdateMemo(memo: string)
      modifies this`memo
      ensures this.memo == Some(memo)
    {
      this.memo := Some(memo);
    }
  }

  // ------------------------------------------------------------ the table

  /** `countByUserId` */
  function CountOf(rows: seq<Favorite>, user: UserId): (n: nat)
    ensures n <= |rows|
  {
    if rows == [] then 0
    else CountOf(rows[..|rows| - 1], user) + (if rows[|rows| - 1].owner == user then 1 else 0)
  }

  /**
   * `findByUserId`, newest first (rows are in creation order; the order is
   * `MyFavoritesNewestFirst`).  It lists exactly the user's favorites:
   * `countByUserId` of them.
   */
  function MyFavorites(rows: seq<Favorite>, user: UserId): (r: seq<Favorite>)
    ensures |r| == CountOf(rows, user)
    ensures forall f :: f in r ==> f in rows && f.owner == user
    ensures forall f :: f in rows && f.owner == user ==> f in r
  {
    if rows == [] then []
    else
      (if rows[|rows| - 1].owner == user then [rows[|rows| - 1]] else [])
      + MyFavorites(rows[..|rows| - 1], user)
  }

  /** The user's favorites in table order, that is, oldest first. */
  function InTableOrder(rows: seq<Favorite>, user: UserId): (r: seq<Favorite>)
    ensures |r| <= |rows|
  {
    if rows == [] then []
    else InTableOrder(rows[..|rows| - 1], user) + (if rows[|rows| - 1].owner == user then [rows[|rows| - 1]] else [])
  }

  /** `s` back to front. */
  function Reversed<T>(s: seq<T>): (r: seq<T>)
    ensures |r| == |s|
    ensures forall k :: 0 <= k < |s| ==> r[k] == s[|s| - 1 - k]
  {
    if s == [] then [] else [s[|s| - 1]] + Reversed(s[..|s| - 1])
  }

  /**
   * `ORDER BY createdAt DESC`: rows are stored in creation order, so the
   * listing is the user's favorites in table order, reversed.
   */
  lemma {:induction false} MyFavoritesNewestFirst(rows: seq<Favorite>, user: UserId)
    ensures MyFavorites(rows, user) == Reversed(InTableOrder(rows, user))
  {
    if rows != [] {
      var init := rows[..|rows| - 1];
      var last := rows[|rows| - 1];
      MyFavoritesNewestFirst(init, user);
      var m := InTableOrder(init, user);
      if last.owner == user {
        assert InTableOrder(rows, user) == m + [last];
        assert (m + [last])[..|m|] == m;
      } else {
        assert InTableOrder(rows, user) == m + [];
      }
    }
  }

  /** `existsByUserIdAndAccountNumber` */
  predicate Bookmarked(rows: seq<Favorite>, user: UserId, accountNumber: string)
  {
    exists f :: f in rows && f.owner == user && f.accountNumber == accountNumber
  }

  /** `findById` */
  function FindFavorite(rows: seq<Favorite>, id: nat): (r: Option<Favorite>)
    ensures r.Some? ==> r.value in rows && r.value.id == id
    ensures r.None? ==> forall f :: f in rows ==> f.id != id
  {
    if rows == [] then None
    else if rows[0].id == id then Some(rows[0])
    else FindFavorite(rows[1..], id)
  }

  /**
   * What the table keeps: the (user, account number) unique constraint, and
   * at most 50 favorites per user.
   */
  ghost predicate Consistent(rows: seq<Favorite>)
  {
    (forall i, j :: 0 <= i < j < |rows| ==>
       !(rows[i].owner == rows[j].owner && rows[i].accountNumber == rows[j].accountNumber))
    && forall u :: CountOf(rows, u) <= MaxFavorites
  }

  /** Appending one favorite counts once, for its owner only. */
  lemma CountAppend(rows: seq<Favorite>, f: Favorite, user: UserId)
    ensures CountOf(rows + [f], user) == CountOf(rows, user) + (if f.owner == user then 1 else 0)
  {
    assert (rows + [f])[..|rows|] == rows;
  }

  /** Adding a favorite the user does not yet have, below the limit, keeps the table consistent. */
  lemma AddKeepsConsistent(rows: seq<Favorite>, f: Favorite)
    requires Consistent(rows)
    requires !Bookmarked(rows, f.owner, f.accountNumber)
    requires CountOf(rows, f.owner) < MaxFavorites
    ensures Consistent(rows + [f])
  {
    var all := rows + [f];
    forall i, j | 0 <= i < j < |all|
      ensures !(all[i].owner == all[j].owner && all[i].accountNumber == all[j].accountNumber)
    {
      assert all[i] == rows[i] && all[i] in rows;
    }
    forall u
      ensures CountOf(all, u) <= MaxFavorites
    {
      CountAppend(rows, f, u);
    }
  }

  /** Every row except `f`, in order. */
  function Without(rows: seq<Favorite>, f: Favorite): (r: seq<Favorite>)
    ensures forall g :: g in r ==> g in rows && g != f
    ensures forall g :: g in rows && g != f ==> g in r
    ensures |r| <= |rows|
  {
    if rows == [] then []
    else if rows[|rows| - 1] == f then Without(rows[..|rows| - 1], f)
    else Without(rows[..|rows| - 1], f) + [rows[|rows| - 1]]
  }

  /** Removing a favorite counts one fewer for its owner at most, and none fewer for anybody else. */
  lemma {:induction false} WithoutCounts(rows: seq<Favorite>, f: Favorite, user: UserId)
    ensures CountOf(Without(rows, f), user) <= CountOf(rows, user)
    ensures user != f.owner ==> CountOf(Without(rows, f), user) == CountOf(rows, user)
  {
    if rows != [] {
      var init := rows[..|rows| - 1];
      WithoutCounts(init, f, user);
      if rows[|rows| - 1] != f {
        CountAppend(Without(init, f), rows[|rows| - 1], user);
      }
    }
  }

  /** Removing rows never breaks consistency. */
  lemma WithoutKeepsConsistent(rows: seq<Favorite>, f: Favorite)
    requires Consistent(rows)
    ensures Consistent(Without(rows, f))
  {
    var r := Without(rows, f);
    forall u
      ensures CountOf(r, u) <= MaxFavorites
    {
      WithoutCounts(rows, f, u);
    }
    forall i, j | 0 <= i < j < |r|
      ensures !(r[i].owner == r[j].owner && r[i].accountNumber == r[j].accountNumber)
    {
      WithoutKeepsOrder(rows, f, i, j);
    }
  }

  /** Two positions of the shorter table come from two positions, in the same order, of the longer. */
  lemma {:induction false} WithoutKeepsOrder(rows: seq<Favorite>, f: Favorite, i: nat, j: nat)
    requires i < j < |Without(rows, f)|
    ensures exists i', j' :: 0 <= i' < j' < |rows| && rows[i'] == Without(rows, f)[i] && rows[j'] == Without(rows, f)[j]
  {
    var init := rows[..|rows| - 1];
    var last := rows[|rows| - 1];
    var r := Without(rows, f);
    if last == f {
      WithoutKeepsOrder(init, f, i, j);
      var i', j' :| 0 <= i' < j' < |init| && init[i'] == r[i] && init[j'] == r[j];
      assert rows[i'] == init[i'] && rows[j'] == init[j'];
    } else if j < |r| - 1 {
      WithoutKeepsOrder(init, f, i, j);
      var i', j' :| 0 <= i' < j' < |init| && init[i'] == r[i] && init[j'] == r[j];
      assert rows[i'] == init[i'] && rows[j'] == init[j'];
    } else {
      assert r[i] in Without(init, f);
      var i' :| 0 <= i' < |init| && init[i'] == r[i];
      assert rows[i'] == r[i] && rows[|rows| - 1] == r[j];
    }
  }

  /** The `favorites` table. */
  class FavoriteTable {
    var rows: seq<Favorite>

    constructor (rows: seq<Favorite>)
      ensures this.rows == rows
    {
      this.rows := rows;
    }

    /** `save` of a new favorite: appended. */
    method Save(f: Favorite)
      modifies this
      ensures rows == if f in old(rows) then old(rows) else old(rows) + [f]
    {
      if f !in rows {
        rows := rows + [f];
      }
    }

    /** `delete` */
    method Delete(f: Favorite)
      modifies this
      ensures rows == Without(old(rows), f)
    {
      rows := Without(rows, f);
    }
  }

  // ------------------------------------------------------------ the service

  datatype FavoriteRequest = FavoriteRequest(accountNumber: string, nickname: Option<string>, memo: Option<string>)

  /** The checks of `addFavorite`, in the order the source makes them. */
  function AddCheck(user: Option<Users.User>, accounts: seq<Accounts.Account>, rows: seq<Favorite>,
                    accountNumber: string): (o: Outcome)
    ensures o.Pass? <==>
      user.Some?
      && Accounts.FindByUserId(accounts, user.value.id).Some?
      && Accounts.FindByUserId(accounts, user.value.id).value.accountNumber != accountNumber
      && Accounts.NumberTaken(accounts, accountNumber)
      && !Bookmarked(rows, user.value.id, accountNumber)
      && CountOf(rows, user.value.id) < MaxFavorites
  {
    if user.None? then Fail(UserNotFound)
    else
      var mine := Accounts.FindByUserId(accounts, user.value.id);
      if mine.None? then Fail(AccountNotFound)
      else if mine.value.accountNumber == accountNumber then Fail(FavoriteOwnAccount)
      else if Accounts.FindByNumber(accounts, accountNumber).None? then Fail(FavoriteUnknownAccount)
      else if Bookmarked(rows, user.value.id, accountNumber) then Fail(FavoriteDuplicate)
      else if CountOf(rows, user.value.id) >= MaxFavorites then Fail(FavoriteLimitReached)
      else Pass
  }

  /**
   * `addFavorite`: on success exactly one favorite is appended, carrying the
   * target account owner's name; the table stays consistent.
   */
  method AddFavorite(table: FavoriteTable, users: seq<Users.User>, accounts: seq<Accounts.Account>,
                     email: string, request: FavoriteRequest, newId: nat)
    returns (r: Result<FavoriteView>)
    modifies table
    ensures var check := AddCheck(Users.FindByEmail(users, email), accounts, old(table.rows), request.accountNumber);
      (r.Ok? <==> check.Pass?)
      && (r.Err? ==> r.error == check.error && table.rows == old(table.rows))
      && (r.Ok? ==>
            |table.rows| == |old(table.rows)| + 1 && table.rows[..|old(table.rows)|] == old(table.rows)
            && var f := table.rows[|old(table.rows)|];
            fresh(f) && f.owner == Users.FindByEmail(users, email).value.id
            && f.View() == FavoriteView(newId, request.accountNumber,
                                        Accounts.FindByNumber(accounts, request.accountNumber).value.user.name,
                                        request.nickname, request.memo)
            && r.value == f.View())
    ensures Consistent(old(table.rows)) ==> Consistent(table.rows)
  {
    var user := Users.FindByEmail(users, email);
    if user.None? {
      return Err(UserNotFound);
    }
    var mine := Accounts.FindByUserId(accounts, user.value.id);
    if mine.None? {
      return Err(AccountNotFound);
    }
    if mine.value.accountNumber == request.accountNumber {
      return Err(FavoriteOwnAccount);
    }
    var target := Accounts.FindByNumber(accounts, request.accountNumber);
    if target.None? {
      return Err(FavoriteUnknownAccount);
    }
    if exists f :: f in table.rows && f.owner == user.value.id && f.accountNumber == request.accountNumber {
      return Err(FavoriteDuplicate);
    }
    if CountOf(table.rows, user.value.id) >= MaxFavorites {
      return Err(FavoriteLimitReached);
    }
    var favorite := new Favorite(newId, user.value.id, request.accountNumber, target.value.user.name,
                                 request.nickname, request.memo);
    if Consistent(table.rows) {
      AddKeepsConsistent(table.rows, favorite);
    }
    table.Save(favorite);
    r := Ok(favorite.View());
  }

  /** The lookup and ownership check shared by detail, update and delete. */
  function OwnedFavorite(rows: seq<Favorite>, user: Option<Users.User>, favoriteId: nat): (r: Result<Favorite>)
    ensures r.Ok? <==> user.Some? && FindFavorite(rows, favoriteId).Some?
                       && FindFavorite(rows, favoriteId).value.owner == user.value.id
    ensures r.Ok? ==> r.value in rows && r.value.id == favoriteId && r.value.owner == user.value.id
    ensures user.None? ==> r == Err(UserNotFound)
    ensures user.Some? && FindFavorite(rows, favoriteId).None? ==> r == Err(FavoriteNotFound)
    ensures r.Err? && r.error == AccessDenied <==>
              user.Some? && FindFavorite(rows, favoriteId).Some?
              && FindFavorite(rows, favoriteId).value.owner != user.value.id
  {
    if user.None? then Err(UserNotFound)
    else
      var found := FindFavorite(rows, favoriteId);
      if found.None? then Err(FavoriteNotFound)
      else if found.value.owner != user.value.id then Err(AccessDenied)
      else Ok(found.value)
  }

  /** The responses of a list of favorites, in order. */
  function Views(fs: seq<Favorite>): (r: seq<FavoriteView>)
    reads fs
    ensures |r| == |fs|
    ensures forall k :: 0 <= k < |fs| ==> r[k] == fs[k].View()
  {
    if fs == [] then [] else [fs[0].View()] + Views(fs[1..])
  }

  /** `getMyFavorites`: the signed-in user's favorites, newest first, and only theirs. */
  function GetMyFavorites(rows: seq<Favorite>, users: seq<Users.User>, email: string)
    : (r: Result<seq<FavoriteView>>)
    reads rows
    ensures r.Err? <==> Users.FindByEmail(users, email).None?
    ensures r.Err? ==> r.error == UserNotFound
    ensures r.Ok? ==>
              var user := Users.FindByEmail(users, email).value.id;
              |r.value| == CountOf(rows, user)
              && (forall k :: 0 <= k < |r.value| ==>
                    exists f :: f in rows && f.owner == user && f.View() == r.value[k])
              && (forall f :: f in rows && f.owner == user ==> f.View() in r.value)
  {
    var user := Users.FindByEmail(users, email);
    if user.None? then Err(UserNotFound)
    else
      var mine := MyFavorites(rows, user.value.id);
      assert forall k :: 0 <= k < |mine| ==> mine[k] in rows;
      var views := Views(mine);
      assert forall f :: f in mine ==> f.View() in views by {
        forall f | f in mine ensures f.View() in views {
          var k :| 0 <= k < |mine| && mine[k] == f;
          assert views[k] == f.View();
        }
      }
      Ok(views)
  }

  /** `getFavoriteDetail` */
  function FavoriteDetail(rows: seq<Favorite>, users: seq<Users.User>, email: string, favoriteId: nat)
    : (r: Result<FavoriteView>)
    reads rows
    ensures r.Ok? ==> Users.FindByEmail(users, email).Some?
                      && exists f :: f in rows && f.owner == Users.FindByEmail(users, email).value.id
                                 && f.View() == r.value && r.value.id == favoriteId
    ensures r.Err? <==> OwnedFavorite(rows, Users.FindByEmail(users, email), favoriteId).Err?
  {
    var owned := OwnedFavorite(rows, Users.FindByEmail(users, email), favoriteId);
    if owned.Err? then Err(owned.error) else Ok(owned.value.View())
  }

  /** A nickname or memo is applied only when it is non-null and non-empty. */
  function Edited(current: Option<string>, given: Option<string>): (v: Option<string>)
    ensures given.Some? && |given.value| > 0 ==> v == given
    ensures given.None? || given == Some("") ==> v == current
  {
    if given.Some? && |given.value| > 0 then given else current
  }

  datatype FavoriteUpdate = FavoriteUpdate(nickname: Option<string>, memo: Option<string>)

  /** `updateFavorite`: only the owner's own favorite changes, and only in its nickname and memo. */
  method UpdateFavorite(rows: seq<Favorite>, users: seq<Users.User>, email: string, favoriteId: nat,
                        request: FavoriteUpdate)
    returns (r: Result<FavoriteView>)
    modifies rows
    ensures var owned := OwnedFavorite(rows, Users.FindByEmail(users, email), favoriteId);
      (owned.Err? ==> r == Err(owned.error))
      && (owned.Ok? ==>
            owned.value.View() == old(owned.value.View()).(nickname := Edited(old(owned.value.nickname), request.nickname),
                                                           memo := Edited(old(owned.value.memo), request.memo))
            && r == Ok(owned.value.View()))
      && forall f :: f in rows && (owned.Err? || f != owned.value) ==> f.View() == old(f.View())
  {
    var owned := OwnedFavorite(rows, Users.FindByEmail(users, email), favoriteId);
    if owned.Err? {
      return Err(owned.error);
    }
    var favorite := owned.value;
    if request.nickname.Some? && |request.nickname.value| > 0 {
      favorite.UpdateNickname(request.nickname.value);
    }
    if request.memo.Some? && |request.memo.value| > 0 {
      favorite.UpdateMemo(request.memo.value);
    }
    r := Ok(favorite.View());
  }

  /** `deleteFavorite`: exactly the owner's favorite leaves the table. */
  method DeleteFavorite(table: FavoriteTable, users: seq<Users.User>, email: string, favoriteId: nat)
    returns (o: Outcome)
    modifies table
    ensures var owned := OwnedFavorite(old(table.rows), Users.FindByEmail(users, email), favoriteId);
      (owned.Err? ==> o == Fail(owned.error) && table.rows == old(table.rows))
      && (owned.Ok? ==> o == Pass && table.rows == Without(old(table.rows), owned.value)
                        && owned.value !in table.rows
                        && forall f :: f in old(table.rows) && f != owned.value ==> f in table.rows)
    ensures Consistent(old(table.rows)) ==> Consistent(table.rows)
  {
    var owned := OwnedFavorite(table.rows, Users.FindByEmail(users, email), favoriteId);
    if owned.Err? {
      return Fail(owned.error);
    }
    if Consistent(table.rows) {
      WithoutKeepsConsistent(table.rows, owned.value);
    }
    table.Delete(owned.value);
    o := Pass;
  }
}
