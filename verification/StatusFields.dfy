/** The status of a User as the API server sees it: fields with values, updated by merge patches. */
module StatusFields {
  import opened Wrappers

  datatype Field = EmailVerification | AvatarUrl | LastLoginProvider | OtherField(name: string)

  /** An absent field is an empty one: the status omits what is empty. */
  type Fields = map<Field, string>

  /** A merge patch: a value to store, or None for a field to remove. */
  type Patch = map<Field, Option<string>>

  /** client.MergeFrom: what turns `original` into `modified`. */
  function Diff(original: Fields, modified: Fields): Patch {
    map f | f in original.Keys + modified.Keys && Get(original, f) != Get(modified, f) :: Get(modified, f)
  }

  /** Section 2 of RFC 7396, on one level. */
  function Apply(stored: Fields, patch: Patch): Fields {
    map f | f in stored.Keys + patch.Keys && (f in patch ==> patch[f].Some?) ::
      if f in patch then patch[f].value else stored[f]
  }

  function Get(s: Fields, f: Field): Option<string> { if f in s then Some(s[f]) else None }

  /** Assigning a field that is omitted when empty. */
  function Assign(s: Fields, f: Field, value: string): Fields { if value == "" then s - {f} else s[f := value] }

  function WithAvatar(s: Fields, url: string, provider: string): Fields {
    Assign(Assign(s, AvatarUrl, url), LastLoginProvider, provider)
  }

  /** The avatar patch of a writer that holds `copy`, as it lands on `stored`. */
  function AvatarPatched(stored: Fields, copy: Fields, url: string, provider: string): Fields {
    Apply(stored, Diff(copy, WithAvatar(copy, url, provider)))
  }

  /** The User shows the avatar. */
  predicate Shows(s: Fields, url: string, provider: string) {
    Get(s, AvatarUrl) == NonEmpty(url) && Get(s, LastLoginProvider) == NonEmpty(provider)
  }

  function NonEmpty(value: string): Option<string> { if value == "" then None else Some(value) }

  lemma GetApplied(stored: Fields, original: Fields, modified: Fields, f: Field)
    ensures Get(Apply(stored, Diff(original, modified)), f)
         == if Get(original, f) == Get(modified, f) then Get(stored, f) else Get(modified, f)
  {
  }

  lemma SameFields(a: Fields, b: Fields)
    requires forall f :: Get(a, f) == Get(b, f)
    ensures a == b
  {
    forall f ensures f in a <==> f in b { assert Get(a, f) == Get(b, f); }
    forall f | f in a ensures f in b && a[f] == b[f] { assert Get(a, f) == Get(b, f); }
  }

  /** On the copy it was built from, a patch gives exactly what was meant. */
  lemma PatchOnCopy(original: Fields, modified: Fields)
    ensures Apply(original, Diff(original, modified)) == modified
  {
    forall f ensures Get(Apply(original, Diff(original, modified)), f) == Get(modified, f) {
      GetApplied(original, original, modified, f);
    }
    SameFields(Apply(original, Diff(original, modified)), modified);
  }

  /** A patch leaves every field that it was not built to change as it is stored, whatever is stored by
      then and however stale the copy, absent fields included. */
  lemma PatchKeepsRest(stored: Fields, original: Fields, modified: Fields, f: Field)
    requires Get(original, f) == Get(modified, f)
    ensures Get(Apply(stored, Diff(original, modified)), f) == Get(stored, f)
  {
    GetApplied(stored, original, modified, f);
  }

  lemma GetWithAvatar(s: Fields, url: string, provider: string, f: Field)
    ensures Get(WithAvatar(s, url, provider), f)
         == if f == AvatarUrl then NonEmpty(url) else if f == LastLoginProvider then NonEmpty(provider) else Get(s, f)
  {
  }

  /** The avatar patch moves only its two fields, for every copy and every stored status. */
  lemma AvatarPatchMovesTwo(stored: Fields, copy: Fields, url: string, provider: string, f: Field)
    requires f != AvatarUrl && f != LastLoginProvider
    ensures Get(AvatarPatched(stored, copy, url, provider), f) == Get(stored, f)
  {
    GetWithAvatar(copy, url, provider, f);
    PatchKeepsRest(stored, copy, WithAvatar(copy, url, provider), f);
  }

  /** When a patch leaves the User with exactly the avatar's two fields: a field that was already right
      when read is not sent, so it must still be right when the patch lands. */
  lemma PatchShowsAvatar(stored: Fields, copy: Fields, url: string, provider: string)
    ensures Shows(AvatarPatched(stored, copy, url, provider), url, provider) <==>
      && (Get(copy, AvatarUrl) == NonEmpty(url) ==> Get(stored, AvatarUrl) == Get(copy, AvatarUrl))
      && (Get(copy, LastLoginProvider) == NonEmpty(provider)
          ==> Get(stored, LastLoginProvider) == Get(copy, LastLoginProvider))
  {
    var wanted := WithAvatar(copy, url, provider);
    GetWithAvatar(copy, url, provider, AvatarUrl);
    GetWithAvatar(copy, url, provider, LastLoginProvider);
    GetApplied(stored, copy, wanted, AvatarUrl);
    GetApplied(stored, copy, wanted, LastLoginProvider);
  }
}
