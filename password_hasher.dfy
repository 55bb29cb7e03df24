/** Password hashers (PhabricatorPasswordHasher): the "name:digest" storage
    form, the registry of hashers keyed by unique name, the choice of the
    strongest usable hasher, and the checks built on them.

    The hash algorithms themselves are one deterministic function `digest`
    from a hasher name and a password to a digest; hasher strength is an
    integer; the loaded hasher objects are an input sequence in load order. */
module PasswordHasher {
  import opened Wrappers
  import opened Seqs
  import opened Strings

  const MaximumStorageSize := 128

  datatype Hasher = Hasher(name: string, hashLength: int, canHashPasswords: bool, strength: int)

  /** The algorithm behind a hasher name. */
  type Digest = (string, string) -> string

  datatype HasherError =
    | HashTooLong(name: string, actual: nat, expected: int)
    | MalformedHash
    | StorageOverflow(name: string, potentialLength: int)
    | DuplicateName(name: string)
    | NoUsableHasher
    | HasherNotUsable(name: string)
    | UnknownHasher(name: string)

  datatype ParsedHash = ParsedHash(name: string, hash: string)

  /* -------------------------------------------------------------------- */
  /* Storage form.                                                         */

  /** getPasswordHashForStorage. */
  function StorageForm(h: Hasher, digest: Digest, password: string): (r: Result<string, HasherError>)
    ensures r.Ok? <==> |digest(h.name, password)| <= h.hashLength
    ensures r.Ok? ==> r.value == h.name + ":" + digest(h.name, password)
    ensures r.Err? ==> r.error == HashTooLong(h.name, |digest(h.name, password)|, h.hashLength)
  {
    var hash := digest(h.name, password);
    if |hash| > h.hashLength then Err(HashTooLong(h.name, |hash|, h.hashLength))
    else Ok(h.name + ":" + hash)
  }

  /** parseHashFromStorage: the text before the first ':' and the text
      between the first and the second (or the end). */
  function ParseStorage(raw: string): (r: Result<ParsedHash, HasherError>)
    ensures r.Err? <==> ':' !in raw
    ensures r.Err? ==> r.error == MalformedHash
    ensures r.Ok? ==>
      ':' !in r.value.name && ':' !in r.value.hash &&
      var prefix := r.value.name + ":" + r.value.hash;
      |prefix| <= |raw| && raw[..|prefix|] == prefix &&
      (|prefix| < |raw| ==> raw[|prefix|] == ':')
  {
    match IndexOf(raw, ':')
    case None => Err(MalformedHash)
    case Some(k) =>
      var rest := raw[k + 1..];
      var hash := match IndexOf(rest, ':') case None => rest case Some(j) => rest[..j];
      assert raw == raw[..k] + ":" + rest;
      assert (raw[..k] + ":" + hash) + raw[k + 1 + |hash|..] == raw;
      Ok(ParsedHash(raw[..k], hash))
  }

  lemma StorageRoundTrip(name: string, hash: string)
    requires ':' !in name && ':' !in hash
    ensures ParseStorage(name + ":" + hash) == Ok(ParsedHash(name, hash))
  {
    IndexOfConcat(name, ':', hash);
    var raw := name + ":" + hash;
    assert raw[..|name|] == name;
    assert raw[|name| + 1..] == hash;
    assert IndexOf(hash, ':') == None;
  }

  /* -------------------------------------------------------------------- */
  /* The registry.                                                         */

  predicate FitsStorage(h: Hasher) {
    |h.name| + h.hashLength + 1 <= MaximumStorageSize
  }

  function Names(hs: seq<Hasher>): (ns: seq<string>)
    ensures |ns| == |hs| && forall i :: 0 <= i < |hs| ==> ns[i] == hs[i].name
  {
    seq(|hs|, i requires 0 <= i < |hs| => hs[i].name)
  }

  /** getAllHashers: the hashers in load order, keyed by name; the first
      one (in load order) that could overflow storage or repeats a name
      throws. */
  function AllHashers(objects: seq<Hasher>): (r: Result<seq<Hasher>, HasherError>)
    ensures r.Ok? ==> r.value == objects
    ensures r.Err? ==> r.error.StorageOverflow? || r.error.DuplicateName?
  {
    if objects == [] then Ok([])
    else
      var last := objects[|objects| - 1];
      var registry :- AllHashers(objects[..|objects| - 1]);
      if !FitsStorage(last) then Err(StorageOverflow(last.name, |last.name| + last.hashLength + 1))
      else if last.name in Names(registry) then Err(DuplicateName(last.name))
      else
        assert objects == objects[..|objects| - 1] + [last];
        Ok(registry + [last])
  }

  /** The registry builds iff every hasher fits storage and names are
      unique, and then it holds every loaded hasher in load order. */
  lemma {:induction false} AllHashersSucceeds(objects: seq<Hasher>)
    ensures AllHashers(objects).Ok? <==> AllFit(objects) && NoDuplicates(Names(objects))
    ensures AllHashers(objects).Ok? ==> AllHashers(objects).value == objects
  {
    if objects != [] {
      var init := objects[..|objects| - 1];
      var last := objects[|objects| - 1];
      AllHashersSucceeds(init);
      assert objects == init + [last];
      assert Names(objects) == Names(init) + [last.name];
      NoDuplicatesSnoc(Names(init), last.name);
      assert AllFit(objects) <==> AllFit(init) && FitsStorage(last) by {
        if AllFit(init) && FitsStorage(last) {
          forall i | 0 <= i < |objects|
            ensures FitsStorage(objects[i])
          {
            if i < |init| {
              assert objects[i] == init[i];
            }
          }
        }
        if AllFit(objects) {
          forall i | 0 <= i < |init|
            ensures FitsStorage(init[i])
          {
            assert objects[i] == init[i];
          }
        }
      }
    }
  }

  /** Every loaded hasher may fit storage. */
  predicate AllFit(objects: seq<Hasher>) {
    forall i :: 0 <= i < |objects| ==> FitsStorage(objects[i])
  }

  /** A too-long hasher makes the registry throw, whatever else is loaded. */
  lemma {:induction false} OverflowThrows(objects: seq<Hasher>, i: nat)
    requires i < |objects| && !FitsStorage(objects[i])
    ensures AllHashers(objects).Err?
  {
    AllHashersSucceeds(objects);
  }

  /** The hasher registered under `name`, if any. */
  function Lookup(registry: seq<Hasher>, name: string): (r: Option<Hasher>)
    ensures r.Some? ==> r.value in registry && r.value.name == name
    ensures r.None? ==> name !in Names(registry)
  {
    if registry == [] then None
    else if registry[0].name == name then Some(registry[0])
    else
      assert Names(registry) == [registry[0].name] + Names(registry[1..]);
      Lookup(registry[1..], name)
  }

  lemma {:induction false} LookupFindsEach(registry: seq<Hasher>, i: nat)
    requires NoDuplicates(Names(registry)) && i < |registry|
    ensures Lookup(registry, registry[i].name) == Some(registry[i])
  {
    if i > 0 {
      assert Names(registry)[0] != Names(registry)[i];
      var rest := registry[1..];
      assert NoDuplicates(Names(rest)) by {
        assert forall j :: 0 <= j < |rest| ==> Names(rest)[j] == Names(registry)[j + 1];
      }
      LookupFindsEach(rest, i - 1);
    }
  }

  method BuildRegistry(objects: seq<Hasher>) returns (r: Result<seq<Hasher>, HasherError>)
    ensures r == AllHashers(objects)
  {
    var registry: seq<Hasher> := [];
    var names: set<string> := {};
    for i := 0 to |objects|
      invariant AllHashers(objects[..i]) == Ok(registry)
      invariant forall n :: n in names <==> n in Names(registry)
    {
      assert objects[..i + 1][..i] == objects[..i];
      var hasher := objects[i];
      var potentialLength := |hasher.name| + hasher.hashLength + 1;
      if potentialLength > MaximumStorageSize {
        assert objects[..i + 1] == objects[..i] + [hasher];
        r := Err(StorageOverflow(hasher.name, potentialLength));
        AllHashersErrStays(objects, i + 1);
        assert objects[..|objects|] == objects;
        return;
      }
      if hasher.name in names {
        r := Err(DuplicateName(hasher.name));
        AllHashersErrStays(objects, i + 1);
        assert objects[..|objects|] == objects;
        return;
      }
      assert Names(registry + [hasher]) == Names(registry) + [hasher.name];
      registry := registry + [hasher];
      names := names + {hasher.name};
    }
    assert objects[..|objects|] == objects;
    r := Ok(registry);
  }

  /** Once a prefix of the loaded hashers throws, the whole load throws
      the same exception. */
  lemma {:induction false} AllHashersErrStays(objects: seq<Hasher>, n: nat)
    requires n <= |objects| && AllHashers(objects[..n]).Err?
    ensures AllHashers(objects) == AllHashers(objects[..n])
    decreases |objects| - n
  {
    if n < |objects| {
      assert objects[..n + 1][..n] == objects[..n];
      AllHashersErrStays(objects, n + 1);
    } else {
      assert objects[..n] == objects;
    }
  }

  /* -------------------------------------------------------------------- */
  /* Usable hashers and the best one.                                      */

  /** The registry with the hashers that cannot hash passwords left out. */
  function UsableHashers(registry: seq<Hasher>): (r: seq<Hasher>)
    ensures forall h :: h in r <==> h in registry && h.canHashPasswords
  {
    Filter(registry, (h: Hasher) => h.canHashPasswords)
  }

  /** getAllUsableHashers: the registry with the unusable entries unset. */
  method AllUsableHashers(objects: seq<Hasher>) returns (r: Result<seq<Hasher>, HasherError>)
    ensures r.Err? <==> AllHashers(objects).Err?
    ensures r.Ok? ==> r.value == UsableHashers(AllHashers(objects).value)
    ensures r.Ok? ==> forall h :: h in r.value <==> h in objects && h.canHashPasswords
  {
    var all := BuildRegistry(objects);
    if all.Err? {
      return Err(all.error);
    }
    AllHashersSucceeds(objects);
    var hashers := all.value;
    var usable: seq<Hasher> := [];
    for i := 0 to |hashers|
      invariant usable == UsableHashers(hashers[..i])
    {
      assert hashers[..i + 1][..i] == hashers[..i];
      if hashers[i].canHashPasswords {
        usable := usable + [hashers[i]];
      }
    }
    assert hashers[..|hashers|] == hashers;
    r := Ok(usable);
  }

  /** The strongest hasher of a non-empty list, the later one on a tie
      (the last element after an ascending sort by strength). */
  function Strongest(hs: seq<Hasher>): (h: Hasher)
    requires hs != []
    ensures h in hs
    ensures forall g :: g in hs ==> g.strength <= h.strength
  {
    if |hs| == 1 then hs[0]
    else
      var init := hs[..|hs| - 1];
      var best := Strongest(init);
      assert forall g :: g in hs ==> g in init || g == hs[|hs| - 1];
      if hs[|hs| - 1].strength >= best.strength then hs[|hs| - 1] else best
  }

  /** getBestHasher. */
  function BestHasher(objects: seq<Hasher>): (r: Result<Hasher, HasherError>)
    ensures AllHashers(objects).Err? ==> r == Err(AllHashers(objects).error)
    ensures r.Ok? ==> r.value in objects && r.value.canHashPasswords
    ensures r.Err? && AllHashers(objects).Ok? ==> r.error == NoUsableHasher
  {
    var registry :- AllHashers(objects);
    var usable := UsableHashers(registry);
    if usable == [] then Err(NoUsableHasher) else Ok(Strongest(usable))
  }

  /** The best hasher is a usable loaded hasher at least as strong as every
      usable one; with a buildable registry it throws only when no hasher
      is usable. */
  lemma BestHasherIsStrongest(objects: seq<Hasher>)
    ensures var r := BestHasher(objects);
      (r.Ok? ==>
        r.value in objects && r.value.canHashPasswords &&
        forall h :: h in objects && h.canHashPasswords ==> h.strength <= r.value.strength) &&
      (r.Err? && AllHashers(objects).Ok? ==>
        r.error == NoUsableHasher && forall h :: h in objects ==> !h.canHashPasswords)
  {
    AllHashersSucceeds(objects);
  }

  /* -------------------------------------------------------------------- */
  /* Using a stored hash.                                                  */

  /** getHasherForHash. */
  function HasherForHash(objects: seq<Hasher>, stored: string): (r: Result<Hasher, HasherError>)
    ensures ':' !in stored ==> r == Err(MalformedHash)
    ensures r.Ok? ==>
      r.value in objects && r.value.canHashPasswords && r.value.name == ParseStorage(stored).value.name
  {
    var info :- ParseStorage(stored);
    var registry :- AllHashers(objects);
    match Lookup(UsableHashers(registry), info.name)
    case Some(h) => Ok(h)
    case None =>
      if Lookup(registry, info.name).Some? then Err(HasherNotUsable(info.name))
      else Err(UnknownHasher(info.name))
  }

  /** Two loaded hashers with the same name are the same hasher once the
      registry builds. */
  lemma RegistryNamesUnique(objects: seq<Hasher>, a: Hasher, b: Hasher)
    requires AllHashers(objects).Ok? && a in objects && b in objects && a.name == b.name
    ensures a == b
  {
    AllHashersSucceeds(objects);
    var i :| 0 <= i < |objects| && objects[i] == a;
    var j :| 0 <= j < |objects| && objects[j] == b;
    assert Names(objects)[i] == Names(objects)[j];
  }

  lemma LookupFinds(registry: seq<Hasher>, name: string)
    ensures Lookup(registry, name).Some? <==> exists h :: h in registry && h.name == name
  {
    if h :| h in registry && h.name == name {
      var i :| 0 <= i < |registry| && registry[i] == h;
      assert Names(registry)[i] == name;
    }
  }

  /** For a well-formed stored hash and a buildable registry: the result is
      the usable hasher with the stored name; it throws "not usable" iff a
      hasher has that name but cannot hash, and "unknown" iff none has it. */
  lemma HasherForHashCases(objects: seq<Hasher>, stored: string)
    requires ':' in stored && AllHashers(objects).Ok?
    ensures var name := ParseStorage(stored).value.name;
      var r := HasherForHash(objects, stored);
      (r.Ok? ==> r.value.name == name && r.value.canHashPasswords && r.value in objects) &&
      (r.Ok? <==> exists h :: h in objects && h.name == name && h.canHashPasswords) &&
      (r == Err(HasherNotUsable(name)) <==>
        exists h :: h in objects && h.name == name && !h.canHashPasswords) &&
      (r == Err(UnknownHasher(name)) <==> forall h :: h in objects ==> h.name != name)
  {
    AllHashersSucceeds(objects);
    var name := ParseStorage(stored).value.name;
    var usable := UsableHashers(objects);
    LookupFinds(usable, name);
    LookupFinds(objects, name);
    if h :| h in objects && h.name == name && !h.canHashPasswords {
      forall g | g in usable && g.name == name
        ensures g == h
      {
        RegistryNamesUnique(objects, g, h);
      }
    }
  }

  /** canHashBeUpgraded. */
  function CanHashBeUpgraded(objects: seq<Hasher>, stored: string): (r: Result<bool, HasherError>)
    ensures r.Ok? <==> HasherForHash(objects, stored).Ok? && BestHasher(objects).Ok?
    ensures r == Ok(false) ==> HasherForHash(objects, stored).value.name == BestHasher(objects).value.name
  {
    var current :- HasherForHash(objects, stored);
    var best :- BestHasher(objects);
    Ok(current.name != best.name)
  }

  /** A stored hash that cannot be upgraded uses a hasher at least as
      strong as every usable one. */
  lemma NotUpgradableIsStrongest(objects: seq<Hasher>, stored: string)
    requires CanHashBeUpgraded(objects, stored) == Ok(false)
    ensures var current := HasherForHash(objects, stored).value;
      forall h :: h in objects && h.canHashPasswords ==> h.strength <= current.strength
  {
    HasherForHashCases(objects, stored);
    BestHasherIsStrongest(objects);
    RegistryNamesUnique(objects, HasherForHash(objects, stored).value, BestHasher(objects).value);
  }

  /** generateNewPasswordHash. */
  function NewPasswordHash(objects: seq<Hasher>, digest: Digest, password: string): (r: Result<string, HasherError>)
    ensures BestHasher(objects).Err? ==> r == Err(BestHasher(objects).error)
    ensures r.Ok? ==>
      var best := BestHasher(objects).value;
      r.value == best.name + ":" + digest(best.name, password)
  {
    var best :- BestHasher(objects);
    StorageForm(best, digest, password)
  }

  /** comparePassword. */
  function ComparePassword(objects: seq<Hasher>, digest: Digest, password: string, stored: string)
    : (r: Result<bool, HasherError>)
    ensures HasherForHash(objects, stored).Err? ==> r == Err(HasherForHash(objects, stored).error)
    ensures HasherForHash(objects, stored).Ok? ==>
      var h := HasherForHash(objects, stored).value;
      (StorageForm(h, digest, password).Err? ==>
        r == Err(StorageForm(h, digest, password).error)) &&
      (StorageForm(h, digest, password).Ok? ==> r.Ok?) &&
      (r.Ok? ==> (r.value <==> stored == h.name + ":" + digest(h.name, password)))
  {
    var hasher :- HasherForHash(objects, stored);
    var computed :- StorageForm(hasher, digest, password);
    Ok(computed == stored)
  }

  lemma NameRoundTrip(name: string, hash: string)
    requires ':' !in name
    ensures ParseStorage(name + ":" + hash).Ok?
    ensures ParseStorage(name + ":" + hash).value.name == name
  {
    IndexOfConcat(name, ':', hash);
    assert (name + ":" + hash)[..|name|] == name;
  }

  /** A freshly generated hash matches its password and is already on the
      best hasher, provided the hasher name has no ':' (nothing in the
      registry forbids one, and a ':' in the name breaks parsing). */
  lemma NewHashVerifiesAndIsCurrent(objects: seq<Hasher>, digest: Digest, password: string)
    requires NewPasswordHash(objects, digest, password).Ok?
    requires ':' !in BestHasher(objects).value.name
    ensures var stored := NewPasswordHash(objects, digest, password).value;
      ComparePassword(objects, digest, password, stored) == Ok(true) &&
      CanHashBeUpgraded(objects, stored) == Ok(false)
  {
    var best := BestHasher(objects).value;
    var stored := best.name + ":" + digest(best.name, password);
    NameRoundTrip(best.name, digest(best.name, password));
    assert ':' in stored by {
      assert stored[|best.name|] == ':';
    }
    BestHasherIsStrongest(objects);
    HasherForHashCases(objects, stored);
    assert HasherForHash(objects, stored).Ok?;
    RegistryNamesUnique(objects, HasherForHash(objects, stored).value, best);
  }

  /** A password other than the stored one's does not match when the
      digest separates the two passwords. */
  lemma WrongPasswordFails(objects: seq<Hasher>, digest: Digest, password: string, other: string)
    requires NewPasswordHash(objects, digest, password).Ok?
    requires ':' !in BestHasher(objects).value.name
    requires digest(BestHasher(objects).value.name, password) != digest(BestHasher(objects).value.name, other)
    ensures var stored := NewPasswordHash(objects, digest, password).value;
      ComparePassword(objects, digest, other, stored) != Ok(true)
  {
    NewHashVerifiesAndIsCurrent(objects, digest, password);
    var best := BestHasher(objects).value;
    var mine := digest(best.name, password);
    var theirs := digest(best.name, other);
    assert (best.name + ":" + mine)[|best.name| + 1..] == mine;
    assert (best.name + ":" + theirs)[|best.name| + 1..] == theirs;
  }
}
