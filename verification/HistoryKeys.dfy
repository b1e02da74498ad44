/** The keys of the history store and eviction by prefix (internal/metrics/metrics_server.go). */
module HistoryKeys {
  import opened History

  function HistoryKey(namespace: string, name: string, resource: string): string {
    namespace + "/" + name + "/" + resource
  }

  function HistoryPrefix(namespace: string, name: string): string {
    namespace + "/" + name + "/"
  }

  /** Kubernetes namespaces and names never contain a slash. */
  predicate SlashFree(s: string) {
    '/' !in s
  }

  lemma SplitAtSlash(a: string, x: string, b: string, y: string)
    requires SlashFree(a) && SlashFree(b)
    requires a + "/" + x == b + "/" + y
    ensures a == b && x == y
  {
    var s := a + "/" + x;
    assert s[|a|] == '/' && s[|b|] == '/';
    assert forall i :: 0 <= i < |a| ==> s[i] == a[i] && a[i] in a;
    assert forall i :: 0 <= i < |b| ==> s[i] == b[i] && b[i] in b;
    assert |a| == |b|;
    assert a == s[..|a|] && b == s[..|b|];
    assert x == s[|a| + 1..] && y == s[|b| + 1..];
  }

  /** One key names one autoscaler and one resource, whatever the resource is called. */
  lemma HistoryKeyInjective(ns: string, name: string, r: string, ns': string, name': string, r': string)
    requires SlashFree(ns) && SlashFree(name) && SlashFree(ns') && SlashFree(name')
    ensures HistoryKey(ns, name, r) == HistoryKey(ns', name', r') <==> ns == ns' && name == name' && r == r'
  {
    if HistoryKey(ns, name, r) == HistoryKey(ns', name', r') {
      assert HistoryKey(ns, name, r) == ns + "/" + (name + "/" + r);
      assert HistoryKey(ns', name', r') == ns' + "/" + (name' + "/" + r');
      SplitAtSlash(ns, name + "/" + r, ns', name' + "/" + r');
      SplitAtSlash(name, r, name', r');
    }
  }

  /** A prefix matches exactly the keys of its own autoscaler. */
  lemma PrefixIsExact(ns: string, name: string, ns': string, name': string, r: string)
    requires SlashFree(ns) && SlashFree(name) && SlashFree(ns') && SlashFree(name')
    ensures HistoryPrefix(ns, name) <= HistoryKey(ns', name', r) <==> ns == ns' && name == name'
  {
    var prefix, key := HistoryPrefix(ns, name), HistoryKey(ns', name', r);
    if prefix <= key {
      var rest := key[|prefix|..];
      assert key == prefix + rest == HistoryKey(ns, name, rest);
      HistoryKeyInjective(ns, name, rest, ns', name', r);
    }
    if ns == ns' && name == name' {
      assert key == prefix + r;
    }
  }

  /** Evicting an autoscaler removes all of its series and none of anybody else's. */
  lemma ExactEviction(log: Log, ns: string, name: string, ns': string, name': string, r: string)
    requires SlashFree(ns) && SlashFree(name) && SlashFree(ns') && SlashFree(name')
    ensures var key := HistoryKey(ns', name', r);
      Recorded(WithoutPrefix(log, HistoryPrefix(ns, name)), key) ==
      if ns == ns' && name == name' then [] else Recorded(log, key)
  {
    PrefixIsExact(ns, name, ns', name', r);
  }

  /** With slashes in names eviction would reach a different autoscaler's series. */
  lemma SlashesWouldCollide(log: Log, sample: Sample)
    requires log == map[HistoryKey("a", "b/c", "cpu") := [sample]]
    ensures Recorded(WithoutPrefix(log, HistoryPrefix("a", "b")), HistoryKey("a", "b/c", "cpu")) == []
    ensures Recorded(log, HistoryKey("a", "b/c", "cpu")) == [sample]
  {
  }
}
