/**
 * The `Repo` record and the custom deserializer that builds one from a
 * search-result item.
 */
module RepoDeserializer {
  import opened Options
  import opened Decimal
  import opened Json

  /** One repository as the application shows it. */
  datatype Repo = Repo(
    name: string,
    description: string,
    author: string,
    avatarUrl: string,
    starsCount: Int32)

  /** The keys read from the item object itself. */
  const ItemKeys: set<string> := {"name", "description", "owner", "stargazers_count"}

  /** The keys read from the nested `owner` object. */
  const OwnerKeys: set<string> := {"login", "avatar_url"}

  /**
   * The items the deserializer accepts: an object with a string `name`, a
   * `description` that is a string or an explicit null, an `owner` object
   * with string `login` and `avatar_url`, and a numeric `stargazers_count`.
   */
  predicate IsRepoItem(j: Json) {
    && j.JObject?
    && "name" in j.fields && j.fields["name"].JString?
    && "description" in j.fields && (j.fields["description"].JNull? || j.fields["description"].JString?)
    && "owner" in j.fields && j.fields["owner"].JObject?
    && "login" in j.fields["owner"].fields && j.fields["owner"].fields["login"].JString?
    && "avatar_url" in j.fields["owner"].fields && j.fields["owner"].fields["avatar_url"].JString?
    && "stargazers_count" in j.fields && j.fields["stargazers_count"].JNumber?
  }

  /**
   * Builds a `Repo` from one item. Any key read that is absent, or that holds
   * a value of the wrong kind, makes it fail; only an explicit null
   * description is accepted, and becomes "".
   */
  function Deserialize(j: Json): (r: Option<Repo>)
    ensures r.Some? <==> IsRepoItem(j)
    ensures r.Some? ==> r.value.name == j.fields["name"].str
    ensures r.Some? ==> r.value.description
                        == if j.fields["description"].JNull? then "" else j.fields["description"].str
    ensures r.Some? ==> r.value.author == j.fields["owner"].fields["login"].str
    ensures r.Some? ==> r.value.avatarUrl == j.fields["owner"].fields["avatar_url"].str
    ensures r.Some? ==> r.value.starsCount == ToInt32(j.fields["stargazers_count"].n)
  {
    if !j.JObject? then None
    else
      var repo := j.fields;
      var nameElement :- Get(repo, "name");
      var name :- AsString(nameElement);
      var element :- Get(repo, "description");
      var desc :- if element.JNull? then Some("") else AsString(element);
      var owner :- Get(repo, "owner");
      if !owner.JObject? then None
      else
        var loginElement :- Get(owner.fields, "login");
        var author :- AsString(loginElement);
        var avatarElement :- Get(owner.fields, "avatar_url");
        var avatar :- AsString(avatarElement);
        var starsElement :- Get(repo, "stargazers_count");
        var starsCount :- AsInt(starsElement);
        Some(Repo(name, desc, author, avatar, starsCount))
  }

  /**
   * Deserializes the `items` array element by element, in order; one item
   * that fails makes the whole list fail.
   */
  function DeserializeAll(items: seq<Json>): (r: Option<seq<Repo>>)
    ensures r.Some? <==> forall i :: 0 <= i < |items| ==> IsRepoItem(items[i])
    ensures r.Some? ==> |r.value| == |items|
    ensures r.Some? ==> forall i :: 0 <= i < |items| ==> Deserialize(items[i]) == Some(r.value[i])
  {
    if items == [] then Some([])
    else
      var head :- Deserialize(items[0]);
      var rest :- DeserializeAll(items[1..]);
      Some([head] + rest)
  }

  /** The item a `Repo` would be read from: its own fields under the keys the deserializer reads. */
  function RepoItem(r: Repo): (j: Json)
  {
    JObject(map[
      "name" := JString(r.name),
      "description" := JString(r.description),
      "owner" := JObject(map["login" := JString(r.author), "avatar_url" := JString(r.avatarUrl)]),
      "stargazers_count" := JNumber(r.starsCount)])
  }

  /** Every `Repo` is read back unchanged from its item: no field is lost or altered. */
  lemma DeserializeRoundTrip(r: Repo)
    ensures Deserialize(RepoItem(r)) == Some(r)
  {
  }

  /** An explicit null description reads as "", and every other field is kept. */
  lemma NullDescriptionIsEmpty(r: Repo)
    ensures Deserialize(JObject(RepoItem(r).fields["description" := JNull])) == Some(r.(description := ""))
  {
  }

  /** Without one of the keys it reads, an item is refused outright. */
  lemma MissingItemKeyFails(fields: map<string, Json>, key: string)
    requires key in ItemKeys && key !in fields
    ensures Deserialize(JObject(fields)) == None
  {
  }

  /** Without `login` or `avatar_url` in its owner, an item is refused outright. */
  lemma MissingOwnerKeyFails(fields: map<string, Json>, owner: map<string, Json>, key: string)
    requires "owner" in fields && fields["owner"] == JObject(owner)
    requires key in OwnerKeys && key !in owner
    ensures Deserialize(JObject(fields)) == None
  {
  }

  /** Keys of the item other than the ones read do not change the outcome. */
  lemma UnknownKeysIgnored(fields: map<string, Json>, key: string, value: Json)
    requires key !in ItemKeys
    ensures Deserialize(JObject(fields[key := value])) == Deserialize(JObject(fields))
  {
  }

  /** Keys of the owner other than `login` and `avatar_url` do not change the outcome. */
  lemma UnknownOwnerKeysIgnored(fields: map<string, Json>, owner: map<string, Json>, key: string, value: Json)
    requires "owner" in fields && fields["owner"] == JObject(owner)
    requires key !in OwnerKeys
    ensures Deserialize(JObject(fields["owner" := JObject(owner[key := value])])) == Deserialize(JObject(fields))
  {
  }

  /** The item of the worked example: null description, name "foo", owner "bar", 5 stars. */
  const NullDescriptionItem: Json := JObject(map[
    "name" := JString("foo"),
    "description" := JNull,
    "owner" := JObject(map["login" := JString("bar"), "avatar_url" := JString("u")]),
    "stargazers_count" := JNumber(5)])

  /** The worked example reads as a `Repo` with an empty description. */
  lemma ExampleNullDescription()
    ensures Deserialize(NullDescriptionItem) == Some(Repo("foo", "", "bar", "u", 5))
  {
  }

  /** The same item without `stargazers_count` is refused rather than given 0 stars. */
  lemma ExampleMissingStars()
    ensures Deserialize(JObject(NullDescriptionItem.fields - {"stargazers_count"})) == None
  {
  }
}
