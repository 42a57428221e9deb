/** ApplicationNodeId and ApplicationNodeIdComparer: the identity readings are grouped by. */
module Identity {

  datatype ApplicationNodeId = ApplicationNodeId(applicationUri: string, nodeId: string)

  /** ApplicationNodeIdComparer.Equals: componentwise string equality, which is
      exactly equality of the datatype, so the model may key maps by it. */
  function Equals(x: ApplicationNodeId, y: ApplicationNodeId): (eq: bool)
    ensures eq <==> x == y
  {
    (x.applicationUri == y.applicationUri) && (x.nodeId == y.nodeId)
  }

  /** The string ApplicationNodeIdComparer.GetHashCode hashes. */
  function HashText(k: ApplicationNodeId): (t: string)
    ensures |t| == |k.applicationUri| + 1 + |k.nodeId|
    ensures t[..|k.applicationUri|] == k.applicationUri && t[|k.applicationUri|] == '|'
    ensures t[|k.applicationUri| + 1..] == k.nodeId
  {
    k.applicationUri + "|" + k.nodeId
  }

  /** GetHashCode, for whatever hash the runtime uses for strings: it
      depends on the two compared fields only, through the text above. */
  function GetHashCode(k: ApplicationNodeId, stringHash: string -> int): (h: int)
    ensures forall other :: Equals(k, other) ==> h == stringHash(HashText(other))
  {
    stringHash(HashText(k))
  }

  /** Keys that Equals relates hash equally, whatever the string hash. */
  lemma EqualKeysHashEqually(x: ApplicationNodeId, y: ApplicationNodeId, stringHash: string -> int)
    requires Equals(x, y)
    ensures GetHashCode(x, stringHash) == GetHashCode(y, stringHash)
  {
  }

  /** The converse fails: "|" may occur inside either component, so distinct
      keys can share a hash text (a collision, which Equals then resolves). */
  lemma HashTextCollides()
    ensures var x, y := ApplicationNodeId("a|b", "c"), ApplicationNodeId("a", "b|c");
      !Equals(x, y) && HashText(x) == HashText(y)
  {
    assert "a|b" + "|" + "c" == "a" + "|" + "b|c";
  }
}
