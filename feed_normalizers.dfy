/**
 * The feed page's own copies of `normalizeUser` and `normalizePost`, which differ from the
 * shared normalizers in their fallbacks; the lemmas here say where the two agree and where not.
 */
module FeedNormalizers {
  import opened Wrappers
  import opened JsValues
  import Normalizers

  datatype FeedUser = FeedUser(id: string, name: JsValue, email: JsValue, headline: JsValue, avatar: JsValue)

  datatype Author = Author(id: string, name: JsValue, headline: JsValue, avatar: JsValue)

  datatype FeedPost = FeedPost(
    id: string,
    userId: string,
    content: JsValue,
    imageUrl: JsValue,
    likesCount: JsValue,
    commentsCount: JsValue,
    createdAt: JsValue,
    isLiked: bool,
    user: Author)

  /** `v?.toString()`: undefined on a nullish value, else its text. */
  function ToText(v: Slot): (r: Option<string>)
    ensures r.None? <==> Nullish(v)
  {
    if Nullish(v) then None else Some(ToStr(v.value))
  }

  /** The local `normalizeUser`. */
  function NormalizeUser(raw: Slot): (r: FeedUser)
    ensures r.id == ToStringId(Get(raw, "id"))
    // each field as given, else "" for name and email and null for headline and avatar
    ensures FirstOf(r.name, Get(raw, "name"), None, JsString([]))
    ensures FirstOf(r.email, Get(raw, "email"), None, JsString([]))
    ensures FirstOf(r.headline, Get(raw, "headline"), None, JsNull)
    ensures FirstOf(r.avatar, Get(raw, "avatar"), None, JsNull)
  {
    FeedUser(
      id := ToText(Get(raw, "id")).OrElse([]),
      name := Default(Get(raw, "name"), JsString([])),
      email := Default(Get(raw, "email"), JsString([])),
      headline := Default(Get(raw, "headline"), JsNull),
      avatar := Default(Get(raw, "avatar"), JsNull))
  }

  /** The local `normalizePost`; `now` stands for `new Date().toISOString()`. */
  function NormalizePost(raw: Slot, now: string): (r: FeedPost)
    ensures r.id == ToStringId(Get(raw, "id"))
    // the post's `userId` reads the top-level field first, the author id the nested one first
    ensures !Nullish(Get(raw, "userId")) ==> r.userId == ToStr(Get(raw, "userId").value)
    ensures Nullish(Get(raw, "userId")) ==> r.userId == ToStringId(Get(Get(raw, "user"), "id"))
    ensures !Nullish(Get(Get(raw, "user"), "id")) ==> r.user.id == ToStr(Get(Get(raw, "user"), "id").value)
    ensures Nullish(Get(Get(raw, "user"), "id")) ==> r.user.id == ToStringId(Get(raw, "userId"))
    ensures FirstOf(r.content, Get(raw, "content"), None, JsString([]))
    ensures FirstOf(r.imageUrl, Get(raw, "imageUrl"), Get(raw, "imageURL"), JsNull)
    // an explicit count, else whatever `length` the raw field has, else 0
    ensures FirstOf(r.likesCount, Get(raw, "likesCount"), Get(Get(raw, "likes"), "length"), JsNumber(0))
    ensures FirstOf(r.commentsCount, Get(raw, "commentsCount"), Get(Get(raw, "comments"), "length"), JsNumber(0))
    ensures FirstOf(r.createdAt, Get(raw, "createdAt"), None, JsString(now))
    ensures r.isLiked == Truthy(Get(raw, "isLiked"))
    // the author's fields: nested user first, then the flat field, then "User" or null
    ensures FirstOf(r.user.name, Get(Get(raw, "user"), "name"), Get(raw, "username"), JsString("User"))
    ensures FirstOf(r.user.headline, Get(Get(raw, "user"), "headline"), Get(raw, "userHeadline"), JsNull)
    ensures FirstOf(r.user.avatar, Get(Get(raw, "user"), "avatar"), Get(raw, "userAvatar"), JsNull)
  {
    var user := Get(raw, "user");
    FeedPost(
      id := ToText(Get(raw, "id")).OrElse([]),
      userId := ToText(Get(raw, "userId")).Or(ToText(Get(user, "id"))).OrElse([]),
      content := Default(Get(raw, "content"), JsString([])),
      imageUrl := Default(Coalesce(Get(raw, "imageUrl"), Get(raw, "imageURL")), JsNull),
      likesCount := Default(Coalesce(Get(raw, "likesCount"), Get(Get(raw, "likes"), "length")), JsNumber(0)),
      commentsCount := Default(Coalesce(Get(raw, "commentsCount"), Get(Get(raw, "comments"), "length")), JsNumber(0)),
      createdAt := Default(Get(raw, "createdAt"), JsString(now)),
      isLiked := Truthy(Get(raw, "isLiked")),
      user := Author(
        id := ToText(Get(user, "id")).Or(ToText(Get(raw, "userId"))).OrElse([]),
        name := Default(Coalesce(Get(user, "name"), Get(raw, "username")), JsString("User")),
        headline := Default(Coalesce(Get(user, "headline"), Get(raw, "userHeadline")), JsNull),
        avatar := Default(Coalesce(Get(user, "avatar"), Get(raw, "userAvatar")), JsNull)))
  }

  /**
   * The post's `userId` reads the top-level field first and the author id the nested one
   * first, so the two agree exactly when at most one is given or both have the same text.
   */
  lemma PostUserIdMatchesAuthorIff(raw: Slot, now: string)
    ensures var p := NormalizePost(raw, now);
      p.userId == p.user.id <==>
        Nullish(Get(raw, "userId")) || Nullish(Get(Get(raw, "user"), "id")) ||
        ToStr(Get(raw, "userId").value) == ToStr(Get(Get(raw, "user"), "id").value)
  {
  }

  /** Where the shared `normalizeUser` reads no alternative key, the feed copy gives the same fields. */
  lemma UserAgreesWithShared(raw: Slot)
    requires Nullish(Get(raw, "_id")) && Nullish(Get(raw, "username"))
    requires Nullish(Get(raw, "userHeadline")) && Nullish(Get(raw, "userAvatar"))
    ensures var f := NormalizeUser(raw);
      var s := Normalizers.NormalizeUser(raw);
      f == FeedUser(s.id, s.name, s.email, s.headline, s.avatar)
  {
  }

  /** An author with no name anywhere is "User" on the feed page but "" in the shared normalizer. */
  lemma AuthorNameDefaultsDiffer(raw: Slot, now: string)
    requires Nullish(Get(Get(raw, "user"), "name")) && Nullish(Get(Get(raw, "user"), "username"))
    requires Nullish(Get(raw, "username"))
    ensures NormalizePost(raw, now).user.name == JsString("User")
    ensures Normalizers.NormalizePost(raw, now).user.name == JsString([])
  {
    if Nullish(Get(raw, "user")) {
      Normalizers.PostAuthorFromFlatFields(raw, now);
    }
  }

  /**
   * Without an explicit `likesCount`, the feed page takes `likes?.length` with no array check:
   * it agrees with the shared normalizer exactly when `likes` is an array or has no nonzero
   * `length` (a string's length, say).
   */
  lemma LikesCountAgreesIff(raw: Slot, now: string)
    requires Nullish(Get(raw, "likesCount"))
    ensures NormalizePost(raw, now).likesCount == Normalizers.NormalizePost(raw, now).likesCount <==>
      var likes := Get(raw, "likes");
      (likes.Some? && likes.value.JsArray?) ||
      Nullish(Get(likes, "length")) || Get(likes, "length") == Some(JsNumber(0))
  {
  }
}
