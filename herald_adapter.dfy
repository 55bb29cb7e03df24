/** Herald adapters (HeraldAdapter): the field and condition vocabularies,
    which conditions each field allows, and finding adapters: all of them
    (cached), the enabled ones, and the one for a content type.

    Adapter discovery is an input: the list the class loader would return.
    An adapter is described by its class name and by the two methods a
    subclass may override, with `None` meaning "not overridden". */
module HeraldAdapter {
  import opened Wrappers
  import opened Seqs

  const FieldTitle := "title"
  const FieldBody := "body"
  const FieldAuthor := "author"
  const FieldReviewer := "reviewer"
  const FieldReviewers := "reviewers"
  const FieldCC := "cc"
  const FieldTags := "tags"
  const FieldDiffFile := "diff-file"
  const FieldDiffContent := "diff-content"
  const FieldRepository := "repository"
  const FieldRule := "rule"
  const FieldAffectedPackage := "affected-package"
  const FieldAffectedPackageOwner := "affected-package-owner"

  const ConditionContains := "contains"
  const ConditionNotContains := "!contains"
  const ConditionIs := "is"
  const ConditionIsNot := "!is"
  const ConditionIsAny := "isany"
  const ConditionIsNotAny := "!isany"
  const ConditionIncludeAll := "all"
  const ConditionIncludeAny := "any"
  const ConditionIncludeNone := "none"
  const ConditionIsMe := "me"
  const ConditionIsNotMe := "!me"
  const ConditionRegexp := "regexp"
  const ConditionRule := "conditions"
  const ConditionNotRule := "!conditions"
  const ConditionExists := "exists"
  const ConditionNotExists := "!exists"
  const ConditionRegexpPair := "regexp-pair"

  datatype HeraldError = NoConditions(field: string) | NoAdapter(contentType: string)

  function FieldNameMap(): map<string, string> {
    map[
      FieldTitle := "Title", FieldBody := "Body", FieldAuthor := "Author",
      FieldReviewer := "Reviewer", FieldReviewers := "Reviewers", FieldCC := "CCs",
      FieldTags := "Tags", FieldDiffFile := "Any changed filename",
      FieldDiffContent := "Any changed file content", FieldRepository := "Repository",
      FieldRule := "Another Herald rule", FieldAffectedPackage := "Any affected package",
      FieldAffectedPackageOwner := "Any affected package's owner"]
  }

  function ConditionNameMap(): map<string, string> {
    map[
      ConditionContains := "contains", ConditionNotContains := "does not contain",
      ConditionIs := "is", ConditionIsNot := "is not",
      ConditionIsAny := "is any of", ConditionIsNotAny := "is not any of",
      ConditionIncludeAll := "include all of", ConditionIncludeAny := "include any of",
      ConditionIncludeNone := "include none of",
      ConditionIsMe := "is myself", ConditionIsNotMe := "is not myself",
      ConditionRegexp := "matches regexp",
      ConditionRule := "matches:", ConditionNotRule := "does not match:",
      ConditionExists := "exists", ConditionNotExists := "does not exist",
      ConditionRegexpPair := "matches regexp pair"]
  }

  /** getConditionsForField. */
  function ConditionsForField(field: string): Result<seq<string>, HeraldError> {
    if field == FieldTitle || field == FieldBody then
      Ok([ConditionContains, ConditionNotContains, ConditionIs, ConditionIsNot, ConditionRegexp])
    else if field == FieldAuthor || field == FieldRepository || field == FieldReviewer then
      Ok([ConditionIsAny, ConditionIsNotAny])
    else if field == FieldTags || field == FieldReviewers || field == FieldCC then
      Ok([ConditionIncludeAll, ConditionIncludeAny, ConditionIncludeNone])
    else if field == FieldDiffFile then
      Ok([ConditionContains, ConditionRegexp])
    else if field == FieldDiffContent then
      Ok([ConditionContains, ConditionRegexp, ConditionRegexpPair])
    else if field == FieldRule then
      Ok([ConditionRule, ConditionNotRule])
    else if field == FieldAffectedPackage || field == FieldAffectedPackageOwner then
      Ok([ConditionIncludeAny, ConditionIncludeNone])
    else Err(NoConditions(field))
  }

  /** A field has conditions exactly when it is one of the thirteen named
      fields; then each of them has a name, listed once. */
  lemma ConditionsCoverFields(field: string)
    ensures ConditionsForField(field).Ok? <==> field in FieldNameMap()
    ensures ConditionsForField(field).Err? ==> ConditionsForField(field).error == NoConditions(field)
    ensures ConditionsForField(field).Ok? ==>
      var cs := ConditionsForField(field).value;
      |cs| >= 2 && NoDuplicates(cs) && forall c :: c in cs ==> c in ConditionNameMap()
  {
  }

  lemma TextFieldConditions()
    ensures ConditionsForField(FieldTitle) == ConditionsForField(FieldBody)
      == Ok([ConditionContains, ConditionNotContains, ConditionIs, ConditionIsNot, ConditionRegexp])
  {
  }

  /* -------------------------------------------------------------------- */
  /* Adapters.                                                             */

  datatype Adapter = Adapter(className: string, enabledOverride: Option<bool>, contentTypeOverride: Option<string>)

  /** isEnabled: true unless the adapter says otherwise. */
  predicate IsEnabled(a: Adapter) {
    a.enabledOverride != Some(false)
  }

  /** getAdapterContentType: the class name unless the adapter says otherwise. */
  function ContentType(a: Adapter): string {
    match a.contentTypeOverride
    case Some(t) => t
    case None => a.className
  }

  /** No adapter before position k has the content type. */
  predicate FirstMatchAt(adapters: seq<Adapter>, contentType: string, k: int) {
    forall j :: 0 <= j < k && j < |adapters| ==> ContentType(adapters[j]) != contentType
  }

  /** The first adapter, in list order, with the given content type. */
  function FirstForContentType(adapters: seq<Adapter>, contentType: string): (r: Result<Adapter, HeraldError>)
    ensures r.Ok? ==> ContentType(r.value) == contentType
    ensures r.Ok? ==>
      exists k :: 0 <= k < |adapters| && adapters[k] == r.value && FirstMatchAt(adapters, contentType, k)
    ensures r.Err? <==> forall j :: 0 <= j < |adapters| ==> ContentType(adapters[j]) != contentType
    ensures r.Err? ==> r.error == NoAdapter(contentType)
  {
    if adapters == [] then Err(NoAdapter(contentType))
    else if ContentType(adapters[0]) == contentType then Ok(adapters[0])
    else
      var r := FirstForContentType(adapters[1..], contentType);
      assert forall j :: 1 <= j < |adapters| ==> adapters[j] == adapters[1..][j - 1];
      r
  }

  /** The adapter list, loaded once per process: `getAllAdapters` keeps the
      loaded list in a static variable and loads again while it is empty. */
  class AdapterRegistry {
    var cache: seq<Adapter>

    constructor()
      ensures cache == []
    {
      cache := [];
    }

    /** getAllAdapters; `loaded` is what the class loader returns. */
    method AllAdapters(loaded: seq<Adapter>) returns (adapters: seq<Adapter>)
      modifies this
      ensures old(cache) != [] ==> adapters == old(cache) && cache == old(cache)
      ensures old(cache) == [] ==> adapters == loaded && cache == loaded
    {
      if cache == [] {
        cache := loaded;
      }
      adapters := cache;
    }

    /** getAllEnabledAdapters: the adapter list with the disabled ones unset. */
    method AllEnabledAdapters(loaded: seq<Adapter>) returns (enabled: seq<Adapter>)
      modifies this
      ensures old(cache) != [] ==> cache == old(cache)
      ensures old(cache) == [] ==> cache == loaded
      ensures enabled == Filter(cache, IsEnabled)
    {
      var adapters := AllAdapters(loaded);
      enabled := [];
      for k := 0 to |adapters|
        invariant enabled == Filter(adapters[..k], IsEnabled)
      {
        assert adapters[..k + 1][..k] == adapters[..k];
        if IsEnabled(adapters[k]) {
          enabled := enabled + [adapters[k]];
        }
      }
      assert adapters[..|adapters|] == adapters;
    }

    /** getAdapterForContentType. */
    method AdapterForContentType(loaded: seq<Adapter>, contentType: string) returns (r: Result<Adapter, HeraldError>)
      modifies this
      ensures old(cache) != [] ==> cache == old(cache)
      ensures old(cache) == [] ==> cache == loaded
      ensures r == FirstForContentType(cache, contentType)
    {
      var adapters := AllAdapters(loaded);
      for k := 0 to |adapters|
        invariant forall j :: 0 <= j < k ==> ContentType(adapters[j]) != contentType
      {
        if ContentType(adapters[k]) == contentType {
          FirstIsUnique(adapters, contentType, k);
          return Ok(adapters[k]);
        }
      }
      r := Err(NoAdapter(contentType));
    }
  }

  lemma FirstIsUnique(adapters: seq<Adapter>, contentType: string, k: nat)
    requires k < |adapters| && ContentType(adapters[k]) == contentType
    requires forall j :: 0 <= j < k ==> ContentType(adapters[j]) != contentType
    ensures FirstForContentType(adapters, contentType) == Ok(adapters[k])
  {
    var r := FirstForContentType(adapters, contentType);
    var m :| 0 <= m < |adapters| && adapters[m] == r.value && FirstMatchAt(adapters, contentType, m);
    assert !(m < k) && !(k < m);
  }

  /** With no adapter overriding isEnabled, every adapter is enabled. */
  lemma AllEnabledByDefault(adapters: seq<Adapter>)
    requires forall j :: 0 <= j < |adapters| ==> adapters[j].enabledOverride == None
    ensures Filter(adapters, IsEnabled) == adapters
  {
    FilterAll(adapters, IsEnabled);
  }
}
