/** The path builders shared by the ZooKeeper and Etcd listeners. */
module Paths {

  const APP_AUTH_PARENT := "/shenyu/auth"
  const META_DATA_PARENT := "/shenyu/metaData"
  const PLUGIN_PARENT := "/shenyu/plugin"
  const SELECTOR_PARENT := "/shenyu/selector"
  const RULE_PARENT := "/shenyu/rule"

  function AppAuthPath(appKey: string): string { APP_AUTH_PARENT + "/" + appKey }
  function MetaDataPath(path: string): string { META_DATA_PARENT + "/" + path }
  function PluginPath(plugin: string): string { PLUGIN_PARENT + "/" + plugin }
  function SelectorParentPath(plugin: string): string { SELECTOR_PARENT + "/" + plugin }
  function SelectorRealPath(plugin: string, selector: string): string {
    SELECTOR_PARENT + "/" + plugin + "/" + selector
  }
  function RuleParentPath(plugin: string): string { RULE_PARENT + "/" + plugin }
  function RulePath(plugin: string, selector: string, rule: string): string {
    RuleParentPath(plugin) + "/" + (selector + "-" + rule)
  }

  /** What a data-carrying path stands for. */
  datatype Key =
    | AuthKey(appKey: string)
    | MetaKey(path: string)
    | PluginKey(plugin: string)
    | SelectorKey(plugin: string, selector: string)
    | RuleKey(plugin: string, selector: string, rule: string)

  function PathOf(k: Key): string {
    match k
    case AuthKey(a) => AppAuthPath(a)
    case MetaKey(p) => MetaDataPath(p)
    case PluginKey(n) => PluginPath(n)
    case SelectorKey(n, s) => SelectorRealPath(n, s)
    case RuleKey(n, s, r) => RulePath(n, s, r)
  }

  /** Everything up to and including the separator after the family's parent node. */
  function Root(k: Key): string {
    match k
    case AuthKey(_) => APP_AUTH_PARENT + "/"
    case MetaKey(_) => META_DATA_PARENT + "/"
    case PluginKey(_) => PLUGIN_PARENT + "/"
    case SelectorKey(_, _) => SELECTOR_PARENT + "/"
    case RuleKey(_, _, _) => RULE_PARENT + "/"
  }

  /** The part of the path below the root. */
  function Tail(k: Key): string {
    match k
    case AuthKey(a) => a
    case MetaKey(p) => p
    case PluginKey(n) => n
    case SelectorKey(n, s) => n + "/" + s
    case RuleKey(n, s, r) => n + "/" + (s + "-" + r)
  }

  lemma PathSplits(k: Key)
    ensures PathOf(k) == Root(k) + Tail(k)
  {
    match k {
      case AuthKey(a) =>
      case MetaKey(p) =>
      case PluginKey(n) =>
      case SelectorKey(n, s) =>
        assert SELECTOR_PARENT + "/" + n + "/" + s == (SELECTOR_PARENT + "/") + (n + "/" + s);
      case RuleKey(n, s, r) =>
        assert RuleParentPath(n) + "/" + (s + "-" + r) == (RULE_PARENT + "/") + (n + "/" + (s + "-" + r));
    }
  }

  predicate SameFamily(k: Key, l: Key) {
    (k.AuthKey? <==> l.AuthKey?) && (k.MetaKey? <==> l.MetaKey?) && (k.PluginKey? <==> l.PluginKey?)
    && (k.SelectorKey? <==> l.SelectorKey?) && (k.RuleKey? <==> l.RuleKey?)
  }

  /** Two paths that agree beyond the common prefix of all families are of one family. */
  lemma FamilyLetter(k: Key, l: Key)
    requires PathOf(k)[8] == PathOf(l)[8]
    ensures SameFamily(k, l) && Root(k) == Root(l)
  {
    PathSplits(k);
    PathSplits(l);
    assert PathOf(k)[8] == Root(k)[8] && PathOf(l)[8] == Root(l)[8];
  }

  lemma LongPath(k: Key)
    ensures |PathOf(k)| > 8
  {
    PathSplits(k);
  }

  /** Keys of different families never share a path, whatever the names. */
  lemma FamiliesDisjoint(k: Key, l: Key)
    requires PathOf(k) == PathOf(l)
    ensures SameFamily(k, l)
  {
    LongPath(k);
    FamilyLetter(k, l);
  }

  /** A string splits in one way at its first separator. */
  lemma SplitUnique(a: string, b: string, c: string, d: string, sep: char)
    requires sep !in a && sep !in c && a + [sep] + b == c + [sep] + d
    ensures a == c && b == d
  {
    var s := a + [sep] + b;
    assert s[|a|] == sep && s[|c|] == sep;
    assert |a| == |c|;
    assert a == s[..|a|] && c == s[..|c|] && b == s[|a| + 1..] && d == s[|c| + 1..];
  }

  lemma TailUnique(k: Key, l: Key)
    requires SameFamily(k, l) && Tail(k) == Tail(l)
    requires k.SelectorKey? || k.RuleKey? ==> '/' !in k.plugin && '/' !in l.plugin
    requires k.RuleKey? ==> '-' !in k.selector && '-' !in l.selector
    ensures k == l
  {
    if k.SelectorKey? {
      SplitUnique(k.plugin, k.selector, l.plugin, l.selector, '/');
    } else if k.RuleKey? {
      SplitUnique(k.plugin, k.selector + "-" + k.rule, l.plugin, l.selector + "-" + l.rule, '/');
      SplitUnique(k.selector, k.rule, l.selector, l.rule, '-');
    }
  }

  /** Distinct keys have distinct paths when plugin names have no '/' and selector ids no '-'. */
  lemma PathsInjective(k: Key, l: Key)
    requires PathOf(k) == PathOf(l)
    requires k.SelectorKey? || k.RuleKey? ==> '/' !in k.plugin
    requires l.SelectorKey? || l.RuleKey? ==> '/' !in l.plugin
    requires k.RuleKey? ==> '-' !in k.selector
    requires l.RuleKey? ==> '-' !in l.selector
    ensures k == l
  {
    LongPath(k);
    FamilyLetter(k, l);
    PathSplits(k);
    PathSplits(l);
    var r := Root(k);
    assert Tail(k) == PathOf(k)[|r|..] && Tail(l) == PathOf(l)[|r|..];
    TailUnique(k, l);
  }

  /** Without those conditions paths do collide: a '-' or a '/' can move across the joint. */
  lemma PathsCollide(p: string, a: string, b: string, c: string)
    ensures RulePath(p, a + "-" + b, c) == RulePath(p, a, b + "-" + c)
    ensures SelectorRealPath(p + "/" + a, b) == SelectorRealPath(p, a + "/" + b)
  {
    assert (a + "-" + b) + "-" + c == a + "-" + (b + "-" + c);
    assert SELECTOR_PARENT + "/" + (p + "/" + a) + "/" + b == SELECTOR_PARENT + "/" + p + "/" + (a + "/" + b);
  }
}
