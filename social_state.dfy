/**
 * The OAuth `state` store of src/service/auth/base_social_auth_service.py:
 * a state is saved under a platform-namespaced key with a 300-second
 * lifetime and consumed by its first successful validation (the CSRF
 * `state` of section 10.12 of RFC 6749).
 *
 * The Redis server is the class `KeyValueStore`; its clock is the explicit
 * parameter `now` (seconds), and an entry is live while `now` is before its
 * expiry time.
 */
module SocialState {
  import opened Wrappers
  import opened Errors

  /** An entry: the stored value and the time at which it expires. */
  datatype Entry = Entry(value: string, expiresAt: int)

  type Entries = map<string, Entry>

  /** `GET key`: the value of a live entry. */
  function Lookup(entries: Entries, key: string, now: int): (r: Option<string>)
    ensures r.Some? <==> key in entries && now < entries[key].expiresAt
    ensures r.Some? ==> r.value == entries[key].value
  {
    if key in entries && now < entries[key].expiresAt then Some(entries[key].value) else None
  }

  /** The Redis server: a map from key to entry. */
  class KeyValueStore {
    var entries: Entries

    constructor()
      ensures entries == map[]
    {
      entries := map[];
    }

    /** `SETEX key ttl value`. */
    method SetEx(key: string, ttl: int, value: string, now: int)
      modifies this
      ensures entries == old(entries)[key := Entry(value, now + ttl)]
    {
      entries := entries[key := Entry(value, now + ttl)];
    }

    /** `GET key`. */
    function Get(key: string, now: int): Option<string>
      reads this
    {
      Lookup(entries, key, now)
    }

    /** `DEL key`. */
    method Delete(key: string)
      modifies this
      ensures entries == old(entries) - {key}
    {
      entries := entries - {key};
    }
  }

  const StateTtl: int := 300
  const StateMarker: string := "valid"

  /** The Redis key of `state` for `platform` (line 14). */
  function StateKey(platform: string, state: string): string {
    platform + "_state:" + state
  }

  /** The entries after `save_state` (lines 12-14). */
  function Saved(entries: Entries, platform: string, state: string, now: int): (e: Entries)
    ensures e.Keys == entries.Keys + {StateKey(platform, state)}
    ensures Lookup(e, StateKey(platform, state), now) == Some(StateMarker)
    ensures forall k :: k in entries && k != StateKey(platform, state) ==> e[k] == entries[k]
  {
    entries[StateKey(platform, state) := Entry(StateMarker, now + StateTtl)]
  }

  /** `validate_state` (lines 16-21): a missing, expired or empty value raises `InvalidStateException`; otherwise the key is deleted. */
  function Validated(entries: Entries, platform: string, state: string, now: int): (r: (Result<(), Exc>, Entries))
    ensures var v := Lookup(entries, StateKey(platform, state), now);
      if v.Some? && v.value != [] then r == (Ok(()), entries - {StateKey(platform, state)})
      else r == (Err(External(InvalidState, None)), entries)
  {
    var key := StateKey(platform, state);
    var saved := Lookup(entries, key, now);
    if saved.None? || saved.value == [] then (Err(External(InvalidState, None)), entries)
    else (Ok(()), entries - {key})
  }

  /** A state validates if it is checked within 300 seconds of being saved. */
  lemma SaveThenValidate(entries: Entries, platform: string, state: string, saved: int, now: int)
    requires saved <= now < saved + StateTtl
    ensures Validated(Saved(entries, platform, state, saved), platform, state, now).0 == Ok(())
  {
  }

  /** 300 seconds after it was saved, a state no longer validates. */
  lemma ExpiredStateFails(entries: Entries, platform: string, state: string, saved: int, now: int)
    requires now >= saved + StateTtl
    ensures Validated(Saved(entries, platform, state, saved), platform, state, now).0.Err?
  {
  }

  /** A state is single-use: once validated, validating it again fails. */
  lemma ValidateTwiceFails(entries: Entries, platform: string, state: string, now: int, later: int)
    requires Validated(entries, platform, state, now).0.Ok?
    ensures Validated(Validated(entries, platform, state, now).1, platform, state, later).0 == Err(External(InvalidState, None))
  {
  }

  /** The platforms' names carry no underscore, so the key determines platform and state. */
  predicate PlatformName(p: string) {
    '_' !in p
  }

  lemma {:induction false} StateKeyInjective(p1: string, s1: string, p2: string, s2: string)
    requires PlatformName(p1) && PlatformName(p2)
    requires StateKey(p1, s1) == StateKey(p2, s2)
    ensures p1 == p2 && s1 == s2
  {
    var k := StateKey(p1, s1);
    if |p1| < |p2| {
      UnderscoreAfterPlatform(p1, s1);
    } else if |p2| < |p1| {
      UnderscoreAfterPlatform(p2, s2);
    }
    assert p1 == k[..|p1|] == p2;
    assert s1 == k[|p1| + 7..] == s2;
  }

  lemma UnderscoreAfterPlatform(p: string, s: string)
    ensures |StateKey(p, s)| > |p| && StateKey(p, s)[|p|] == '_'
  {
  }

  /** Saving a state for one platform changes nothing a different platform, or a different state, can look up. */
  lemma SaveIsNamespaced(entries: Entries, p1: string, p2: string, s1: string, s2: string, saved: int, now: int)
    requires PlatformName(p1) && PlatformName(p2)
    requires p1 != p2 || s1 != s2
    ensures Lookup(Saved(entries, p1, s1, saved), StateKey(p2, s2), now) == Lookup(entries, StateKey(p2, s2), now)
  {
    if StateKey(p1, s1) == StateKey(p2, s2) {
      StateKeyInjective(p1, s1, p2, s2);
    }
  }

  /** A state saved only for one platform does not validate for another. */
  lemma CrossPlatformFails(entries: Entries, p1: string, p2: string, state: string, saved: int, now: int)
    requires PlatformName(p1) && PlatformName(p2) && p1 != p2
    requires Lookup(entries, StateKey(p2, state), now).None?
    ensures Validated(Saved(entries, p1, state, saved), p2, state, now).0.Err?
  {
    SaveIsNamespaced(entries, p1, p2, state, state, saved, now);
  }

  /** `BaseSocialAuthService`: the platform name and the shared store. */
  class SocialAuthService {
    const platform: string
    const store: KeyValueStore

    constructor(platform: string, store: KeyValueStore)
      ensures this.platform == platform && this.store == store
    {
      this.platform := platform;
      this.store := store;
    }

    /** `save_state`. */
    method SaveState(state: string, now: int)
      modifies store
      ensures store.entries == Saved(old(store.entries), platform, state, now)
    {
      store.SetEx(StateKey(platform, state), StateTtl, StateMarker, now);
    }

    /** `validate_state`. */
    method ValidateState(state: string, now: int) returns (r: Result<(), Exc>)
      modifies store
      ensures (r, store.entries) == Validated(old(store.entries), platform, state, now)
    {
      var key := StateKey(platform, state);
      var saved := store.Get(key, now);
      if saved.None? || saved.value == [] {
        return Err(External(InvalidState, None));
      }
      store.Delete(key);
      r := Ok(());
    }
  }
}
