/**
 The flat Redis key space.  Every key is a string built from a family prefix and the
 caller's names, so two different pairs share a key whenever a service name may hold ':'.
 */
module Keys {
  import opened Types

  const PREFIX: string := "platform:registry:"

  function InstanceKey(k: Key): string {
    PREFIX + "instance:" + (k.service + ":" + k.id)
  }

  function TokenKey(k: Key): string {
    PREFIX + "token:" + (k.service + ":" + k.id)
  }

  function ServiceKey(service: string): string {
    PREFIX + "service:" + service
  }

  function RevisionKey(): string {
    PREFIX + "revision"
  }

  function StreamKey(): string {
    PREFIX + "changes"
  }

  function ServicesKey(): string {
    PREFIX + "services"
  }

  predicate Alphanumeric(c: char) {
    'a' <= c <= 'z' || '0' <= c <= '9'
  }

  /** Accepted by the pattern ^[a-z0-9](?:[a-z0-9-]{0,61}[a-z0-9])?$. */
  predicate ValidName(s: string) {
    && 1 <= |s| <= 63
    && Alphanumeric(s[0])
    && Alphanumeric(s[|s| - 1])
    && forall i :: 0 <= i < |s| ==> Alphanumeric(s[i]) || s[i] == '-'
  }

  /** Between the two ends: at most 61 characters of [a-z0-9-]. */
  predicate Middle(m: string) {
    |m| <= 61 && forall i :: 0 <= i < |m| ==> 'a' <= m[i] <= 'z' || '0' <= m[i] <= '9' || m[i] == '-'
  }

  lemma EnclosedIsValid(a: char, m: string, b: char)
    ensures ValidName([a] + m + [b]) <==>
            && ('a' <= a <= 'z' || '0' <= a <= '9')
            && Middle(m)
            && ('a' <= b <= 'z' || '0' <= b <= '9')
  {
    var s := [a] + m + [b];
    assert s[0] == a && s[|s| - 1] == b;
    assert forall i :: 0 <= i < |m| ==> s[i + 1] == m[i];
    assert forall i :: 0 < i < |s| - 1 ==> s[i] == m[i - 1];
    if ValidName(s) {
      forall i | 0 <= i < |m|
        ensures Alphanumeric(m[i]) || m[i] == '-'
      {
        assert s[i + 1] == m[i];
      }
    }
  }

  /**
   The names accepted are those of the pattern: one character of [a-z0-9], or two of them
   with at most 61 of [a-z0-9-] in between, and nothing else.
   */
  lemma PatternLanguage(s: string)
    ensures |s| == 0 ==> !ValidName(s)
    ensures |s| == 1 ==> (ValidName(s) <==> 'a' <= s[0] <= 'z' || '0' <= s[0] <= '9')
    ensures |s| >= 2 ==>
              var a, m, b := s[0], s[1..|s| - 1], s[|s| - 1];
              && s == [a] + m + [b]
              && (ValidName(s) <==>
                    ('a' <= a <= 'z' || '0' <= a <= '9') && Middle(m) && ('a' <= b <= 'z' || '0' <= b <= '9'))
  {
    if |s| >= 2 {
      var a, m, b := s[0], s[1..|s| - 1], s[|s| - 1];
      assert s == [a] + m + [b];
      EnclosedIsValid(a, m, b);
    }
  }

  /** The first ':' of a joined pair is the one after a service name that holds none. */
  lemma JoinShape(k: Key)
    requires ':' !in k.service
    ensures (k.service + ":" + k.id)[|k.service|] == ':'
    ensures forall j :: 0 <= j < |k.service| ==> (k.service + ":" + k.id)[j] != ':'
  {
    forall j | 0 <= j < |k.service|
      ensures (k.service + ":" + k.id)[j] != ':'
    {
      assert (k.service + ":" + k.id)[j] == k.service[j];
    }
  }

  lemma JoinInjective(a: Key, b: Key)
    requires ':' !in a.service && ':' !in b.service
    requires a.service + ":" + a.id == b.service + ":" + b.id
    ensures a == b
  {
    JoinShape(a);
    JoinShape(b);
    var t := a.service + ":" + a.id;
    assert t[..|a.service|] == a.service && t[..|b.service|] == b.service;
    assert t[|a.service| + 1..] == a.id && t[|b.service| + 1..] == b.id;
  }

  lemma TailsEqual(p: string, a: string, b: string)
    requires p + a == p + b
    ensures a == b
  {
    assert (p + a)[|p|..] == a && (p + b)[|p|..] == b;
  }

  /** Pairs whose service names pass the pattern never share an instance key or a token key. */
  lemma KeysInjective(a: Key, b: Key)
    requires ValidName(a.service) && ValidName(b.service)
    ensures InstanceKey(a) == InstanceKey(b) <==> a == b
    ensures TokenKey(a) == TokenKey(b) <==> a == b
  {
    if InstanceKey(a) == InstanceKey(b) {
      TailsEqual(PREFIX + "instance:", a.service + ":" + a.id, b.service + ":" + b.id);
      JoinInjective(a, b);
    }
    if TokenKey(a) == TokenKey(b) {
      TailsEqual(PREFIX + "token:", a.service + ":" + a.id, b.service + ":" + b.id);
      JoinInjective(a, b);
    }
  }

  /** A pair shares its instance key with another exactly when it shares its token key. */
  lemma AliasesAgree(a: Key, b: Key)
    ensures InstanceKey(a) == InstanceKey(b) <==> TokenKey(a) == TokenKey(b)
  {
    if InstanceKey(a) == InstanceKey(b) {
      TailsEqual(PREFIX + "instance:", a.service + ":" + a.id, b.service + ":" + b.id);
    }
    if TokenKey(a) == TokenKey(b) {
      TailsEqual(PREFIX + "token:", a.service + ":" + a.id, b.service + ":" + b.id);
    }
  }

  lemma ServiceKeysInjective(s: string, t: string)
    ensures ServiceKey(s) == ServiceKey(t) <==> s == t
  {
    if ServiceKey(s) == ServiceKey(t) {
      TailsEqual(PREFIX + "service:", s, t);
    }
  }

  /** Whatever the names are, the six key families never meet. */
  lemma FamiliesDisjoint(a: Key, b: Key, s: string)
    ensures InstanceKey(a) != TokenKey(b)
    ensures InstanceKey(a) != ServiceKey(s) && TokenKey(b) != ServiceKey(s)
    ensures {InstanceKey(a), TokenKey(b), ServiceKey(s)} !! {RevisionKey(), StreamKey(), ServicesKey()}
    ensures RevisionKey() != StreamKey() && StreamKey() != ServicesKey() && RevisionKey() != ServicesKey()
  {
    var n := |PREFIX|;
    assert InstanceKey(a)[n] == 'i' && TokenKey(b)[n] == 't' && ServiceKey(s)[n] == 's';
    assert RevisionKey()[n] == 'r' && StreamKey()[n] == 'c' && ServicesKey()[n] == 's';
    assert ServiceKey(s)[n + 7] == ':' && ServicesKey()[n + 7] == 's';
  }

  /** The key strings, written out. */
  lemma KeyStrings(service: string, id: string)
    ensures InstanceKey(Key(service, id)) == "platform:registry:instance:" + service + ":" + id
    ensures TokenKey(Key(service, id)) == "platform:registry:token:" + service + ":" + id
    ensures ServiceKey(service) == "platform:registry:service:" + service
    ensures RevisionKey() == "platform:registry:revision" && StreamKey() == "platform:registry:changes"
    ensures ServicesKey() == "platform:registry:services"
  {
    assert PREFIX + "instance:" == "platform:registry:instance:" && PREFIX + "token:" == "platform:registry:token:";
    assert InstanceKey(Key(service, id)) == PREFIX + "instance:" + service + ":" + id;
    assert TokenKey(Key(service, id)) == PREFIX + "token:" + service + ":" + id;
  }

  /** Without the pattern the keys do collide: a ':' in the service name moves the boundary. */
  lemma ColonAliases()
    ensures InstanceKey(Key("a:b", "c")) == InstanceKey(Key("a", "b:c"))
    ensures TokenKey(Key("a:b", "c")) == TokenKey(Key("a", "b:c"))
  {
    assert "a:b" + ":" + "c" == "a" + ":" + "b:c";
  }
}
