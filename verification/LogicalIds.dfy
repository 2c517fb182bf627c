/** Logical event IDs: identifiers joined by ':', which identifiers may themselves contain. */
module LogicalIds {
  import opened Joining

  function LogicalId(tenant: string, app: string, producer: string, event: string): string {
    "logical:" + tenant + ":" + app + ":" + producer + ":" + event
  }

  // ---- Producers of the contract ----

  predicate SlugChar(c: char) { 'a' <= c <= 'z' || '0' <= c <= '9' || c == '-' }
  predicate Slug(s: string) { s != "" && forall c :: c in s ==> SlugChar(c) }

  predicate Plain(producer: string) { producer == "sdk-android" || producer == "sdk-ios" || producer == "redirector" }
  predicate Namespace(name: string) { name == "import" || name == "adapter" || name == "postback" }

  predicate Namespaced(producer: string, name: string) {
    name + ":" <= producer && Slug(producer[|name| + 1..])
  }

  /** The producers the contract's schemas allow. */
  predicate ContractProducer(producer: string) {
    Plain(producer) || Namespaced(producer, "import") || Namespaced(producer, "adapter") || Namespaced(producer, "postback")
  }

  function NamespaceOf(producer: string): string
    requires ContractProducer(producer) && !Plain(producer)
  {
    if Namespaced(producer, "import") then "import" else if Namespaced(producer, "adapter") then "adapter" else "postback"
  }

  lemma SlugHasNoColon(s: string)
    requires Slug(s)
    ensures ':' !in s
  {
  }

  lemma NamespacedParts(producer: string)
    requires ContractProducer(producer) && !Plain(producer)
    ensures var name := NamespaceOf(producer);
            Namespace(name) && ':' !in name && !Plain(name) && |producer| > |name|
            && Slug(producer[|name| + 1..]) && producer == name + ":" + producer[|name| + 1..]
  {
  }

  lemma PlainHasNoColon(producer: string)
    requires Plain(producer)
    ensures ':' !in producer && !Namespace(producer)
  {
  }

  lemma NamespacedJoin(p: string, x: string)
    requires ContractProducer(p) && !Plain(p)
    ensures |p| > |NamespaceOf(p)|
    ensures p + ":" + x == NamespaceOf(p) + ":" + (p[|NamespaceOf(p)| + 1..] + ":" + x)
  {
    NamespacedParts(p);
  }

  /** No allowed producer followed by ':' starts another one's join. */
  lemma ProducerJoinInjective(p: string, x: string, q: string, y: string)
    requires ContractProducer(p) && ContractProducer(q) && p + ":" + x == q + ":" + y
    ensures p == q && x == y
  {
    if Plain(p) && Plain(q) {
      PlainHasNoColon(p);
      PlainHasNoColon(q);
      SplitAt(':', p, x, q, y);
    } else if Plain(p) {
      PlainJoinDiffers(p, x, q, y);
    } else if Plain(q) {
      PlainJoinDiffers(q, y, p, x);
    } else {
      NamespacedJoinInjective(p, x, q, y);
    }
  }

  lemma PlainJoinDiffers(p: string, x: string, q: string, y: string)
    requires Plain(p) && ContractProducer(q) && !Plain(q)
    ensures p + ":" + x != q + ":" + y
  {
    PlainHasNoColon(p);
    NamespacedParts(q);
    NamespacedJoin(q, y);
    if p + ":" + x == q + ":" + y {
      SplitAt(':', p, x, NamespaceOf(q), q[|NamespaceOf(q)| + 1..] + ":" + y);
    }
  }

  lemma NamespacedJoinInjective(p: string, x: string, q: string, y: string)
    requires ContractProducer(p) && !Plain(p) && ContractProducer(q) && !Plain(q) && p + ":" + x == q + ":" + y
    ensures p == q && x == y
  {
    NamespacedParts(p);
    NamespacedParts(q);
    NamespacedJoin(p, x);
    NamespacedJoin(q, y);
    var s, t := p[|NamespaceOf(p)| + 1..], q[|NamespaceOf(q)| + 1..];
    SplitAt(':', NamespaceOf(p), s + ":" + x, NamespaceOf(q), t + ":" + y);
    SlugHasNoColon(s);
    SlugHasNoColon(t);
    SplitAt(':', s, x, t, y);
  }

  lemma SamePrefix(prefix: string, a: string, b: string)
    requires prefix + a == prefix + b
    ensures a == b
  {
    assert (prefix + a)[|prefix|..] == a && (prefix + b)[|prefix|..] == b;
  }

  /** In one scope, the IDs of allowed producers name the producer and the event. */
  lemma LogicalIdNamesEvent(tenant: string, app: string, p: string, x: string, q: string, y: string)
    requires ContractProducer(p) && ContractProducer(q)
    requires LogicalId(tenant, app, p, x) == LogicalId(tenant, app, q, y)
    ensures p == q && x == y
  {
    var prefix := "logical:" + tenant + ":" + app + ":";
    assert LogicalId(tenant, app, p, x) == prefix + (p + ":" + x);
    assert LogicalId(tenant, app, q, y) == prefix + (q + ":" + y);
    SamePrefix(prefix, p + ":" + x, q + ":" + y);
    ProducerJoinInjective(p, x, q, y);
  }
}
