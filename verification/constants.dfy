/**
 * Store key families and fixed values. The store is keyed by the structured
 * `Key`; `KeyName` renders a key as the string the application writes, and
 * `KeyNameInjective` shows that no two structured keys share a string, so the
 * structured store loses nothing against the flat string keyspace.
 */
module Constants {

  const CdpUserListName := "cdpComplianceUserList"
  const CdpEnforcementBatchSize := 50

  /** Account names that belong to the platform rather than to a person. */
  const SpecialAccountNames: seq<string> := ["reddit", "Reddit Legal", "Anti-Evil Operations", "[ redacted ]"]

  datatype Key =
    | UserKey(user: string)          // sorted set: things the user authored -> action time
    | ModActionsKey(thing: string)   // sorted set: published post ids -> publish time
    | AuditKey(post: string)         // hash: the record behind a published post
    | CdpUserList                    // sorted set: candidate users -> due time
    | EventKey(event: string)        // string: dedup sentinel

  function KeyName(k: Key): string {
    match k
    case UserKey(u) => "user:" + u
    case ModActionsKey(t) => "mod-actions:" + t
    case AuditKey(p) => "audit:" + p
    case CdpUserList => CdpUserListName
    case EventKey(e) => "event:" + e
  }

  /** Leading text of the name of a key, fixed by its family. */
  function FamilyPrefix(k: Key): string {
    match k
    case UserKey(_) => "user:"
    case ModActionsKey(_) => "mod-actions:"
    case AuditKey(_) => "audit:"
    case CdpUserList => CdpUserListName
    case EventKey(_) => "event:"
  }

  lemma KeyNameStartsWithFamilyPrefix(k: Key)
    ensures |FamilyPrefix(k)| <= |KeyName(k)|
    ensures KeyName(k)[..|FamilyPrefix(k)|] == FamilyPrefix(k)
  {
  }

  /**
   * Different keys never share a name: within a family the constructors are
   * injective, and names from different families (or the candidate list name)
   * differ in their first characters.
   */
  lemma {:induction false} KeyNameInjective(a: Key, b: Key)
    ensures KeyName(a) == KeyName(b) ==> a == b
  {
    if KeyName(a) == KeyName(b) {
      var n := KeyName(a);
      KeyNameStartsWithFamilyPrefix(a);
      KeyNameStartsWithFamilyPrefix(b);
      var pa, pb := FamilyPrefix(a), FamilyPrefix(b);
      assert n[..|pa|] == pa && n[..|pb|] == pb;
      // The first character tells the families apart ('u', 'm', 'a', 'c', 'e').
      assert pa[0] == n[0] == pb[0];
      if pa == pb {
        assert a.UserKey? ==> a.user == n[|pa|..];
        assert b.UserKey? ==> b.user == n[|pb|..];
        assert a.ModActionsKey? ==> a.thing == n[|pa|..];
        assert b.ModActionsKey? ==> b.thing == n[|pb|..];
        assert a.AuditKey? ==> a.post == n[|pa|..];
        assert b.AuditKey? ==> b.post == n[|pb|..];
        assert a.EventKey? ==> a.event == n[|pa|..];
        assert b.EventKey? ==> b.event == n[|pb|..];
      }
    }
  }

  /** The batch is fifty, and there are four special names, one of them the redaction placeholder. */
  lemma FixedValues()
    ensures CdpEnforcementBatchSize == 50
    ensures |SpecialAccountNames| == 4 && "[ redacted ]" in SpecialAccountNames
    ensures KeyName(UserKey("u")) == "user:u" && KeyName(ModActionsKey("t")) == "mod-actions:t"
    ensures KeyName(AuditKey("p")) == "audit:p" && KeyName(CdpUserList) == "cdpComplianceUserList"
  {
  }
}
