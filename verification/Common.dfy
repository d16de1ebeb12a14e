/** The optional value used for the source's nil pointers and comma-ok lookups, and
    the composite string keys several components index their maps by. */
module Common {

  datatype Option<+T> = None | Some(value: T)

  function Lookup<K, V>(m: map<K, V>, k: K): Option<V>
  {
    if k in m then Some(m[k]) else None
  }

  // A map key glued together from two parts, as in ruleID + ":" + target.
  function JoinKey(left: string, separator: char, right: string): string
  {
    left + [separator] + right
  }

  // Two different pairs never share a key while the left parts avoid the separator.
  lemma JoinKeyInjective(a: string, b: string, c: string, d: string, separator: char)
    requires separator !in a && separator !in c
    ensures JoinKey(a, separator, b) == JoinKey(c, separator, d) <==> a == c && b == d
  {
    if JoinKey(a, separator, b) == JoinKey(c, separator, d) {
      var k := JoinKey(a, separator, b);
      assert forall i :: 0 <= i < |a| ==> k[i] == a[i] != separator;
      assert forall i :: 0 <= i < |c| ==> k[i] == c[i] != separator;
      assert k[|a|] == separator && k[|c|] == separator;
      assert |a| == |c|;
      assert a == k[..|a|] == c;
      assert b == k[|a| + 1..] == d;
    }
  }

  // With the separator inside a left part the pair is no longer determined by its key.
  lemma JoinKeyCollides(separator: char)
    ensures JoinKey("a" + [separator] + "b", separator, "c") == JoinKey("a", separator, "b" + [separator] + "c")
  {
  }
}
