/**
 * The event dedup guard and the account-list membership tests. The lists of
 * moderators and approved users are what the platform returns for a community;
 * the caller passes them in.
 */
module Utility {
  import opened Text
  import opened Constants
  import opened Store

  datatype Dedup = Dedup(seen: bool, store: Store)

  /** Whether the sentinel for `id` is set (an empty value is falsy and reads as unset). */
  predicate SentinelSet(s: Store, id: string) {
    EventKey(id) in s.strings && s.strings[EventKey(id)] != ""
  }

  /**
   * Check-then-set on the sentinel `event:<id>`: reports whether it was already
   * set and, when it was not, sets it to the current time.
   */
  function EventHasBeenProcessed(s: Store, id: string, now: nat): (r: Dedup)
    ensures r.seen <==> SentinelSet(s, id)
    ensures SentinelSet(r.store, id)
    ensures r.seen ==> r.store == s
    ensures forall k :: k != EventKey(id) ==> (k in r.store.strings <==> k in s.strings)
    ensures forall k :: k != EventKey(id) && k in s.strings ==> r.store.strings[k] == s.strings[k]
    ensures r.store.zsets == s.zsets && r.store.hashes == s.hashes && r.store.cache == s.cache
  {
    if SentinelSet(s, id) then Dedup(true, s)
    else Dedup(false, s.(strings := s.strings[EventKey(id) := NatToString(now)]))
  }

  /** Two deliveries of the same event: the first is new, the second is a duplicate that writes nothing. */
  lemma DedupTwice(s: Store, id: string, t1: nat, t2: nat)
    requires !SentinelSet(s, id)
    ensures var first := EventHasBeenProcessed(s, id, t1);
      var second := EventHasBeenProcessed(first.store, id, t2);
      !first.seen && second.seen && second.store == first.store
  {
  }

  /** The argument of the membership tests: one username or a list of them. */
  datatype UsernameArg = OneName(name: string) | ManyNames(names: seq<string>)

  /** `arg.includes(u)`: a substring test on a string, a membership test on an array. */
  predicate IncludesAsWritten(arg: UsernameArg, u: string) {
    match arg
    case OneName(n) => IsSubstring(u, n)
    case ManyNames(ns) => u in ns
  }

  /** `accounts.some(a => arg.includes(a))`, with `includes` as written. */
  predicate AnyListedAsWritten(accounts: seq<string>, arg: UsernameArg) {
    exists i :: 0 <= i < |accounts| && IncludesAsWritten(arg, accounts[i])
  }

  function Names(arg: UsernameArg): seq<string> {
    match arg
    case OneName(n) => [n]
    case ManyNames(ns) => ns
  }

  /** Some listed account's username is one of the given names. */
  function AnyListed(accounts: seq<string>, arg: UsernameArg): (r: bool)
    ensures r <==> exists a :: a in accounts && a in Names(arg)
  {
    if |accounts| == 0 then false
    else
      assert forall a :: a in accounts <==> a == accounts[0] || a in accounts[1..];
      accounts[0] in Names(arg) || AnyListed(accounts[1..], arg)
  }

  /** `isModerator`, given the community's moderator usernames. */
  function IsModerator(moderators: seq<string>, arg: UsernameArg): (r: bool)
    ensures r <==> exists m :: m in moderators && m in Names(arg)
  {
    AnyListed(moderators, arg)
  }

  /** `isApprovedUserOf`, given the community's approved usernames. */
  function IsApprovedUserOf(approved: seq<string>, arg: UsernameArg): (r: bool)
    ensures r <==> exists a :: a in approved && a in Names(arg)
  {
    AnyListed(approved, arg)
  }

  /** With a list argument the as-written test and the membership test agree. */
  lemma ListArgumentAgrees(accounts: seq<string>, names: seq<string>)
    ensures AnyListedAsWritten(accounts, ManyNames(names)) == AnyListed(accounts, ManyNames(names))
  {
    if AnyListed(accounts, ManyNames(names)) {
      var a :| a in accounts && a in names;
      var i :| 0 <= i < |accounts| && accounts[i] == a;
      assert IncludesAsWritten(ManyNames(names), accounts[i]);
    }
  }

  /**
   * With a single username the as-written test accepts any listed name that is
   * a substring of it: an approved user `open` makes the account `openmod`
   * count as approved.
   */
  lemma SingleNameMatchesSubstrings()
    ensures AnyListedAsWritten(["open"], OneName("openmod"))
    ensures !IsApprovedUserOf(["open"], OneName("openmod"))
  {
    assert IsSubstring("open", "openmod") by {
      assert "openmod"[..4] == "open";
    }
    assert IncludesAsWritten(OneName("openmod"), ["open"][0]);
  }
}
