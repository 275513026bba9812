/** Pool settings (internal/config): three layers resolved into flat values,
    and the rules a configuration must pass. */
module Config {
  import opened Prelude
  import Breaker

  /** One layer of pool settings; None means "not set at this layer". */
  datatype Settings = Settings(
    enabled: Option<bool>,
    concurrency: Option<int>,
    okExitCodes: Option<seq<int>>,
    exitFailureThreshold: Option<int>,
    exitFailureWindow: Option<Duration>,
    exitCooldown: Option<Duration>,
    exitCooldownMax: Option<Duration>,
    exitCooldownMultiplier: Option<real>,
    ttl: Option<Duration>,
    poke: Option<Duration>,
    pokeCount: Option<int>,
    graceShutdown: Option<Duration>,
    termSignal: Option<int>,
    inheritEnv: Option<bool>,
    env: map<string, string>,
    dir: Option<string>,
    resultStream: Option<string>)

  datatype PoolBlock = PoolBlock(settings: Settings, channel: string, command: seq<string>)

  datatype Config = Config(defaults: Settings, pools: map<string, PoolBlock>)

  /** One pool with every knob resolved. */
  datatype PoolConfig = PoolConfig(
    name: string,
    enabled: bool,
    channel: string,
    command: seq<string>,
    concurrency: int,
    okExitCodes: seq<int>,
    exitFailureThreshold: int,
    exitFailureWindow: Duration,
    exitCooldown: Duration,
    exitCooldownMax: Duration,
    exitCooldownMultiplier: real,
    ttl: Duration,
    poke: Duration,
    pokeCount: int,
    graceShutdown: Duration,
    termSignal: int,
    inheritEnv: bool,
    env: map<string, string>,
    dir: string,
    resultStream: string)
  {
    function BreakerParams(): Breaker.Params {
      Breaker.Params(exitFailureThreshold, exitFailureWindow, exitCooldown, exitCooldownMax, exitCooldownMultiplier)
    }
  }

  const Second: Duration := 1_000_000_000
  const Sigterm := 15

  // --------------------------------------------------------------- resolution

  /** The last layer that is set, else the built-in value. */
  function Pick<T>(base: T, defaults: Option<T>, pool: Option<T>): T {
    match pool
    case Some(v) => v
    case None => match defaults
      case Some(v) => v
      case None => base
  }

  function Resolve(c: Config, name: string): PoolConfig
    requires name in c.pools
  {
    var b := c.pools[name];
    var d, p := c.defaults, b.settings;
    var signal := Pick(Sigterm, d.termSignal, p.termSignal);
    PoolConfig(
      name,
      Pick(true, d.enabled, p.enabled),
      if b.channel == "" then name else b.channel,
      b.command,
      Pick(1, d.concurrency, p.concurrency),
      Pick([0], d.okExitCodes, p.okExitCodes),
      Pick(3, d.exitFailureThreshold, p.exitFailureThreshold),
      Pick(10 * Second, d.exitFailureWindow, p.exitFailureWindow),
      Pick(5 * Second, d.exitCooldown, p.exitCooldown),
      Pick(300 * Second, d.exitCooldownMax, p.exitCooldownMax),
      Pick(2.0, d.exitCooldownMultiplier, p.exitCooldownMultiplier),
      Pick(0, d.ttl, p.ttl),
      Pick(0, d.poke, p.poke),
      Pick(1, d.pokeCount, p.pokeCount),
      Pick(30 * Second, d.graceShutdown, p.graceShutdown),
      if signal != 0 then signal else Sigterm,
      Pick(true, d.inheritEnv, p.inheritEnv),
      d.env + p.env,
      Pick("", d.dir, p.dir),
      Pick("stdout", d.resultStream, p.resultStream))
  }

  /** `v` is what the pool block says, else what the shared defaults say, else the
      built-in value. */
  predicate FromLayers<T(==)>(v: T, builtIn: T, shared: Option<T>, block: Option<T>) {
    && (block.Some? ==> v == block.value)
    && (block.None? && shared.Some? ==> v == shared.value)
    && (block.None? && shared.None? ==> v == builtIn)
  }

  /** Setting by setting, where the values of a resolved pool come from. */
  predicate Layered(c: Config, p: PoolConfig)
    requires p.name in c.pools
  {
    var b := c.pools[p.name];
    var d, s := c.defaults, b.settings;
    && FromLayers(p.enabled, true, d.enabled, s.enabled)
    && FromLayers(p.concurrency, 1, d.concurrency, s.concurrency)
    && FromLayers(p.okExitCodes, [0], d.okExitCodes, s.okExitCodes)
    && FromLayers(p.exitFailureThreshold, 3, d.exitFailureThreshold, s.exitFailureThreshold)
    && FromLayers(p.exitFailureWindow, 10_000_000_000, d.exitFailureWindow, s.exitFailureWindow)
    && FromLayers(p.exitCooldown, 5_000_000_000, d.exitCooldown, s.exitCooldown)
    && FromLayers(p.exitCooldownMax, 300_000_000_000, d.exitCooldownMax, s.exitCooldownMax)
    && FromLayers(p.exitCooldownMultiplier, 2.0, d.exitCooldownMultiplier, s.exitCooldownMultiplier)
    && FromLayers(p.ttl, 0, d.ttl, s.ttl)
    && FromLayers(p.poke, 0, d.poke, s.poke)
    && FromLayers(p.pokeCount, 1, d.pokeCount, s.pokeCount)
    && FromLayers(p.graceShutdown, 30_000_000_000, d.graceShutdown, s.graceShutdown)
    && FromLayers(p.inheritEnv, true, d.inheritEnv, s.inheritEnv)
    && FromLayers(p.dir, "", d.dir, s.dir)
    && FromLayers(p.resultStream, "stdout", d.resultStream, s.resultStream)
    && SignalLayered(p.termSignal, d.termSignal, s.termSignal)
    && EnvLayered(p.env, d.env, s.env)
    && p.command == b.command
    && (b.channel != "" ==> p.channel == b.channel)
    && (b.channel == "" ==> p.channel == p.name)
  }

  /** A signal set to 0 counts as the built-in SIGTERM, number 15. */
  predicate SignalLayered(signal: int, shared: Option<int>, block: Option<int>) {
    && (block.Some? ==> signal == if block.value == 0 then 15 else block.value)
    && (block.None? && shared.Some? ==> signal == if shared.value == 0 then 15 else shared.value)
    && (block.None? && shared.None? ==> signal == 15)
  }

  /** The variables of both layers, the block's value where both set one. */
  predicate EnvLayered(env: map<string, string>, shared: map<string, string>, block: map<string, string>) {
    && env.Keys == shared.Keys + block.Keys
    && (forall k :: k in block ==> k in env && env[k] == block[k])
    && (forall k :: k in shared && k !in block ==> k in env && env[k] == shared[k])
  }

  /** Every setting of a resolved pool comes from the layer it should. */
  lemma ResolveLayers(c: Config, name: string)
    requires name in c.pools
    ensures Resolve(c, name).name == name && Layered(c, Resolve(c, name))
  {
  }

  lemma SameEnv(a: map<string, string>, b: map<string, string>, shared: map<string, string>, block: map<string, string>)
    requires EnvLayered(a, shared, block) && EnvLayered(b, shared, block)
    ensures a == b
  {
    assert a.Keys == b.Keys;
    assert forall k :: k in a ==> k in shared.Keys + block.Keys;
  }

  /** The layers leave no choice: nothing else could be resolved. */
  lemma LayersDecide(c: Config, p: PoolConfig, q: PoolConfig)
    requires p.name == q.name && p.name in c.pools && Layered(c, p) && Layered(c, q)
    ensures p == q
  {
    SameEnv(p.env, q.env, c.defaults.env, c.pools[p.name].settings.env);
  }

  /** Nothing set. */
  const Unset := Settings(None, None, None, None, None, None, None, None, None, None, None, None, None,
                          None, map[], None, None)

  function Over<T>(below: Option<T>, above: Option<T>): Option<T> {
    if above.Some? then above else below
  }

  /** `above` laid over `below`, setting by setting. */
  function Overlay(below: Settings, above: Settings): Settings {
    Settings(
      Over(below.enabled, above.enabled),
      Over(below.concurrency, above.concurrency),
      Over(below.okExitCodes, above.okExitCodes),
      Over(below.exitFailureThreshold, above.exitFailureThreshold),
      Over(below.exitFailureWindow, above.exitFailureWindow),
      Over(below.exitCooldown, above.exitCooldown),
      Over(below.exitCooldownMax, above.exitCooldownMax),
      Over(below.exitCooldownMultiplier, above.exitCooldownMultiplier),
      Over(below.ttl, above.ttl),
      Over(below.poke, above.poke),
      Over(below.pokeCount, above.pokeCount),
      Over(below.graceShutdown, above.graceShutdown),
      Over(below.termSignal, above.termSignal),
      Over(below.inheritEnv, above.inheritEnv),
      below.env + above.env,
      Over(below.dir, above.dir),
      Over(below.resultStream, above.resultStream))
  }

  /** The block with the shared settings written under its own. */
  function Spelled(defaults: Settings, b: PoolBlock): PoolBlock {
    b.(settings := Overlay(defaults, b.settings))
  }

  lemma SpelledEnv(env: map<string, string>, shared: map<string, string>, block: map<string, string>)
    ensures EnvLayered(env, Unset.env, shared + block) <==> EnvLayered(env, shared, block)
  {
    assert Unset.env.Keys + (shared + block).Keys == shared.Keys + block.Keys;
    assert forall k :: k in block ==> (shared + block)[k] == block[k];
    assert forall k :: k in shared && k !in block ==> k in shared + block && (shared + block)[k] == shared[k];
  }

  /** The shared defaults written into every block and dropped. */
  function SpelledOut(c: Config): Config {
    Config(Unset, map name | name in c.pools :: Spelled(c.defaults, c.pools[name]))
  }

  /** Shared defaults are shorthand: written into every pool block, under what the
      block sets itself, they give every value of every pool as before. */
  lemma DefaultsAreShorthand(c: Config, p: PoolConfig)
    requires p.name in c.pools
    ensures Layered(SpelledOut(c), p) <==> Layered(c, p)
  {
    SpelledEnv(p.env, c.defaults.env, c.pools[p.name].settings.env);
  }

  lemma ShorthandResolves(c: Config, name: string)
    requires name in c.pools
    ensures Resolve(SpelledOut(c), name) == Resolve(c, name)
  {
    ResolveLayers(c, name);
    ResolveLayers(SpelledOut(c), name);
    DefaultsAreShorthand(c, Resolve(SpelledOut(c), name));
    LayersDecide(c, Resolve(SpelledOut(c), name), Resolve(c, name));
  }

  /** Byte-wise string order, as sort.Strings uses it. */
  predicate Before(a: string, b: string) {
    b != [] && (a == [] || a[0] < b[0] || (a[0] == b[0] && Before(a[1..], b[1..])))
  }

  /** The strings differ at `k`, where `a` ends or has the smaller byte. */
  predicate FirstDifference(a: string, b: string, k: nat) {
    && k < |b| && k <= |a| && a[..k] == b[..k]
    && (k < |a| ==> a[k] < b[k])
  }

  /** Byte-wise order: decided where the strings first differ. */
  lemma {:induction false} BeforeIsLexicographic(a: string, b: string)
    ensures Before(a, b) <==> exists k :: FirstDifference(a, b, k)
  {
    if a != [] && b != [] && a[0] == b[0] {
      BeforeIsLexicographic(a[1..], b[1..]);
      if Before(a, b) {
        var k: nat :| FirstDifference(a[1..], b[1..], k);
        assert a[..k + 1] == [a[0]] + a[1..][..k] && b[..k + 1] == [b[0]] + b[1..][..k];
        assert FirstDifference(a, b, k + 1);
      }
      if exists k :: FirstDifference(a, b, k) {
        var k: nat :| FirstDifference(a, b, k);
        assert a[1..][..k - 1] == a[..k][1..] && b[1..][..k - 1] == b[..k][1..];
        assert FirstDifference(a[1..], b[1..], k - 1);
      }
    } else if Before(a, b) {
      assert FirstDifference(a, b, 0);
    } else if b != [] {
      assert forall k: nat :: 0 < k <= |a| && k <= |b| ==> a[..k][0] == a[0] && b[..k][0] == b[0];
    }
  }

  lemma {:induction false} BeforeIsTotal(a: string, b: string)
    ensures a == b || Before(a, b) || Before(b, a)
  {
    if a != [] && b != [] && a[0] == b[0] {
      BeforeIsTotal(a[1..], b[1..]);
      assert a == [a[0]] + a[1..] && b == [b[0]] + b[1..];
    }
  }

  lemma {:induction false} BeforeIsTransitive(a: string, b: string, c: string)
    requires Before(a, b) && Before(b, c)
    ensures Before(a, c)
  {
    if a != [] && a[0] == b[0] == c[0] {
      BeforeIsTransitive(a[1..], b[1..], c[1..]);
    }
  }

  predicate NameSorted(cfgs: seq<PoolConfig>) {
    forall i, j :: 0 <= i < j < |cfgs| ==> Before(cfgs[i].name, cfgs[j].name)
  }

  lemma {:induction false} BeforeIsStrict(a: string)
    ensures !Before(a, a)
  {
    if a != [] {
      BeforeIsStrict(a[1..]);
    }
  }

  /** The first name of a non-empty set. */
  method First(names: set<string>) returns (first: string)
    requires names != {}
    ensures first in names
    ensures forall n :: n in names ==> n == first || Before(first, n)
  {
    first :| first in names;
    var rest := names - {first};
    while rest != {}
      invariant first in names && rest <= names
      invariant forall n :: n in names - rest ==> n == first || Before(first, n)
      decreases rest
    {
      var n :| n in rest;
      BeforeIsTotal(n, first);
      if Before(n, first) {
        forall m | m in names - rest
          ensures m == n || Before(n, m)
        {
          if m != first {
            BeforeIsTransitive(n, first, m);
          }
        }
        first := n;
      }
      rest := rest - {n};
    }
  }

  predicate AllResolved(c: Config, cfgs: seq<PoolConfig>) {
    forall i :: 0 <= i < |cfgs| ==> cfgs[i].name in c.pools && Layered(c, cfgs[i])
  }

  predicate Lists(cfgs: seq<PoolConfig>, name: string) {
    exists i :: 0 <= i < |cfgs| && cfgs[i].name == name
  }

  /** Every pool resolved, sorted by name. */
  predicate Resolves(c: Config, cfgs: seq<PoolConfig>) {
    NameSorted(cfgs) && AllResolved(c, cfgs) && forall n :: n in c.pools ==> Lists(cfgs, n)
  }

  lemma ListsMore(cfgs: seq<PoolConfig>, p: PoolConfig, name: string)
    ensures Lists(cfgs + [p], name) <==> Lists(cfgs, name) || p.name == name
  {
    if Lists(cfgs, name) {
      var i :| 0 <= i < |cfgs| && cfgs[i].name == name;
      assert (cfgs + [p])[i].name == name;
    }
    assert (cfgs + [p])[|cfgs|] == p;
  }

  method ResolvedPools(c: Config) returns (out: seq<PoolConfig>)
    ensures Resolves(c, out)
  {
    out := [];
    var names := c.pools.Keys;
    while names != {}
      invariant names <= c.pools.Keys
      invariant NameSorted(out) && AllResolved(c, out)
      invariant forall i, n :: 0 <= i < |out| && n in names ==> Before(out[i].name, n)
      invariant forall n :: n in c.pools ==> n in names || Lists(out, n)
      decreases names
    {
      var n := First(names);
      forall m: string
        ensures Lists(out + [Resolve(c, n)], m) <==> Lists(out, m) || n == m
      {
        ListsMore(out, Resolve(c, n), m);
      }
      ResolveLayers(c, n);
      out := out + [Resolve(c, n)];
      names := names - {n};
    }
  }

  lemma NamesDistinct(cfgs: seq<PoolConfig>, i: nat, j: nat)
    requires NameSorted(cfgs) && i < |cfgs| && j < |cfgs| && cfgs[i].name == cfgs[j].name
    ensures i == j
  {
    BeforeIsStrict(cfgs[i].name);
  }

  // --------------------------------------------------------------- validation

  /** The configuration keys a violation can be reported under. */
  datatype Key =
    | Command | Concurrency | PokeCount | OkExitCodes
    | ExitFailureThreshold | ExitFailureWindow
    | ExitCooldown | ExitCooldownMax | ExitCooldownMultiplier
    | Ttl | Poke | GraceShutdown | TermSignal | ResultStream

  datatype Rule = Rule(holds: bool, key: Key)

  function SpawnRules(p: PoolConfig): seq<Rule> {
    [ Rule(p.command != [], Command),
      Rule(p.concurrency >= 1, Concurrency),
      Rule(0 <= p.pokeCount <= p.concurrency, PokeCount) ]
  }

  function ExitCodeRules(p: PoolConfig): seq<Rule> {
    [ Rule(p.okExitCodes != [], OkExitCodes) ]
    + seq(|p.okExitCodes|, i requires 0 <= i < |p.okExitCodes| => Rule(0 <= p.okExitCodes[i] <= 255, OkExitCodes))
  }

  function BreakerRules(p: PoolConfig): seq<Rule> {
    [ Rule(p.exitFailureThreshold >= 0, ExitFailureThreshold),
      Rule(p.exitFailureWindow > 0, ExitFailureWindow),
      Rule(p.exitCooldown >= 0, ExitCooldown),
      Rule(p.exitCooldownMax >= p.exitCooldown, ExitCooldownMax),
      Rule(p.exitCooldownMultiplier >= 1.0, ExitCooldownMultiplier) ]
  }

  datatype Walk = Walk(first: Key, second: Key, third: Key)

  /** The order in which the runtime happens to walk the map of durations. */
  type DurationWalk = w: Walk | {w.first, w.second, w.third} == {Ttl, Poke, GraceShutdown}
    witness Walk(Ttl, Poke, GraceShutdown)

  function DurationRule(p: PoolConfig, key: Key): Rule {
    Rule((if key == Ttl then p.ttl else if key == Poke then p.poke else p.graceShutdown) >= 0, key)
  }

  function DurationRules(p: PoolConfig, w: DurationWalk): seq<Rule> {
    [ DurationRule(p, w.first), DurationRule(p, w.second), DurationRule(p, w.third) ]
  }

  function ProcessRules(p: PoolConfig): seq<Rule> {
    [ Rule(p.termSignal != 0, TermSignal),
      Rule(p.resultStream in {"stdout", "stderr", "none"}, ResultStream) ]
  }

  /** The rules of one resolved pool, in the order they are checked. */
  function Rules(p: PoolConfig, w: DurationWalk): seq<Rule> {
    SpawnRules(p) + ExitCodeRules(p) + BreakerRules(p) + DurationRules(p, w) + ProcessRules(p)
  }

  function Violations(rules: seq<Rule>): seq<Key> {
    if rules == [] then []
    else (if rules[0].holds then [] else [rules[0].key]) + Violations(rules[1..])
  }

  /** The offending keys of one resolved pool, one entry per violation. */
  function PoolErrors(p: PoolConfig, w: DurationWalk): seq<Key> {
    Violations(Rules(p, w))
  }

  /** The rules, as the documentation lists them. */
  predicate SoundPool(p: PoolConfig) {
    && p.command != []
    && p.concurrency >= 1
    && 0 <= p.pokeCount <= p.concurrency
    && p.okExitCodes != [] && (forall i :: 0 <= i < |p.okExitCodes| ==> 0 <= p.okExitCodes[i] <= 255)
    && p.BreakerParams().Validated()
    && p.ttl >= 0 && p.poke >= 0 && p.graceShutdown >= 0
    && p.termSignal != 0
    && p.resultStream in {"stdout", "stderr", "none"}
  }

  predicate Hold(rules: seq<Rule>) {
    forall i :: 0 <= i < |rules| ==> rules[i].holds
  }

  lemma {:induction false} NoViolations(rules: seq<Rule>)
    ensures Violations(rules) == [] <==> Hold(rules)
  {
    if rules != [] {
      NoViolations(rules[1..]);
      assert rules == [rules[0]] + rules[1..];
    }
  }

  lemma HoldBoth(a: seq<Rule>, b: seq<Rule>)
    ensures Hold(a + b) <==> Hold(a) && Hold(b)
  {
    if Hold(a + b) {
      assert forall i :: 0 <= i < |a| ==> a[i] == (a + b)[i];
      assert forall i :: 0 <= i < |b| ==> b[i] == (a + b)[|a| + i];
    }
  }

  lemma SpawnRulesHold(p: PoolConfig)
    ensures Hold(SpawnRules(p)) <==> p.command != [] && p.concurrency >= 1 && 0 <= p.pokeCount <= p.concurrency
  {
    var r := SpawnRules(p);
    assert r[0].key == Command && r[1].key == Concurrency && r[2].key == PokeCount;
  }

  lemma ExitCodeRulesHold(p: PoolConfig)
    ensures Hold(ExitCodeRules(p)) <==>
              p.okExitCodes != [] && forall i :: 0 <= i < |p.okExitCodes| ==> 0 <= p.okExitCodes[i] <= 255
  {
    var r := ExitCodeRules(p);
    assert r[0] == Rule(p.okExitCodes != [], OkExitCodes);
    assert forall i :: 0 <= i < |p.okExitCodes| ==> r[i + 1] == Rule(0 <= p.okExitCodes[i] <= 255, OkExitCodes);
  }

  lemma BreakerRulesHold(p: PoolConfig)
    ensures Hold(BreakerRules(p)) <==> p.BreakerParams().Validated()
  {
    var r := BreakerRules(p);
    assert r[0].key == ExitFailureThreshold && r[1].key == ExitFailureWindow && r[2].key == ExitCooldown;
    assert r[3].key == ExitCooldownMax && r[4].key == ExitCooldownMultiplier;
  }

  lemma DurationRulesHold(p: PoolConfig, w: DurationWalk)
    ensures Hold(DurationRules(p, w)) <==> p.ttl >= 0 && p.poke >= 0 && p.graceShutdown >= 0
  {
    var r := DurationRules(p, w);
    assert r[0].key == w.first && r[1].key == w.second && r[2].key == w.third;
    assert Ttl in {w.first, w.second, w.third} && Poke in {w.first, w.second, w.third};
    assert GraceShutdown in {w.first, w.second, w.third};
  }

  lemma ProcessRulesHold(p: PoolConfig)
    ensures Hold(ProcessRules(p)) <==> p.termSignal != 0 && p.resultStream in {"stdout", "stderr", "none"}
  {
    var r := ProcessRules(p);
    assert r[0].key == TermSignal && r[1].key == ResultStream;
  }

  lemma AllRulesHold(p: PoolConfig, w: DurationWalk)
    ensures Hold(Rules(p, w)) <==> SoundPool(p)
  {
    HoldBoth(SpawnRules(p), ExitCodeRules(p));
    HoldBoth(SpawnRules(p) + ExitCodeRules(p), BreakerRules(p));
    HoldBoth(SpawnRules(p) + ExitCodeRules(p) + BreakerRules(p), DurationRules(p, w));
    HoldBoth(SpawnRules(p) + ExitCodeRules(p) + BreakerRules(p) + DurationRules(p, w), ProcessRules(p));
    SpawnRulesHold(p);
    ExitCodeRulesHold(p);
    BreakerRulesHold(p);
    DurationRulesHold(p, w);
    ProcessRulesHold(p);
  }

  /** The rule a key stands for is broken. */
  predicate Broken(p: PoolConfig, key: Key) {
    match key
    case Command => p.command == []
    case Concurrency => p.concurrency < 1
    case PokeCount => p.pokeCount < 0 || p.pokeCount > p.concurrency
    case OkExitCodes => p.okExitCodes == [] || exists i :: 0 <= i < |p.okExitCodes| && (p.okExitCodes[i] < 0 || p.okExitCodes[i] > 255)
    case ExitFailureThreshold => p.exitFailureThreshold < 0
    case ExitFailureWindow => p.exitFailureWindow <= 0
    case ExitCooldown => p.exitCooldown < 0
    case ExitCooldownMax => p.exitCooldownMax < p.exitCooldown
    case ExitCooldownMultiplier => p.exitCooldownMultiplier < 1.0
    case Ttl => p.ttl < 0
    case Poke => p.poke < 0
    case GraceShutdown => p.graceShutdown < 0
    case TermSignal => p.termSignal == 0
    case ResultStream => p.resultStream != "stdout" && p.resultStream != "stderr" && p.resultStream != "none"
  }

  lemma {:induction false} ViolatedKeys(rules: seq<Rule>, key: Key)
    ensures key in Violations(rules) <==> exists i :: 0 <= i < |rules| && !rules[i].holds && rules[i].key == key
  {
    if rules != [] {
      ViolatedKeys(rules[1..], key);
      assert forall i :: 0 < i < |rules| ==> rules[i] == rules[1..][i - 1];
      if key in Violations(rules[1..]) {
        var i :| 0 <= i < |rules[1..]| && !rules[1..][i].holds && rules[1..][i].key == key;
        assert rules[i + 1] == rules[1..][i];
      }
    }
  }

  lemma {:induction false} ViolationsConcat(a: seq<Rule>, b: seq<Rule>)
    ensures Violations(a + b) == Violations(a) + Violations(b)
  {
    if a == [] {
      assert a + b == b;
    } else {
      assert (a + b)[1..] == a[1..] + b;
      ViolationsConcat(a[1..], b);
    }
  }

  lemma SpawnKeys(p: PoolConfig, key: Key)
    ensures key in Violations(SpawnRules(p)) <==> key in {Command, Concurrency, PokeCount} && Broken(p, key)
  {
    var r := SpawnRules(p);
    ViolatedKeys(r, key);
    assert r[0].key == Command && r[1].key == Concurrency && r[2].key == PokeCount;
  }

  lemma ExitCodeKeys(p: PoolConfig, key: Key)
    ensures key in Violations(ExitCodeRules(p)) <==> key == OkExitCodes && Broken(p, key)
  {
    var r := ExitCodeRules(p);
    ViolatedKeys(r, key);
    assert r[0] == Rule(p.okExitCodes != [], OkExitCodes);
    assert forall i :: 0 <= i < |p.okExitCodes| ==> r[i + 1] == Rule(0 <= p.okExitCodes[i] <= 255, OkExitCodes);
    if key in Violations(r) {
      var i :| 0 <= i < |r| && !r[i].holds && r[i].key == key;
      assert i > 0 ==> r[i] == Rule(0 <= p.okExitCodes[i - 1] <= 255, OkExitCodes);
    }
    if key == OkExitCodes && p.okExitCodes != [] && Broken(p, key) {
      var i :| 0 <= i < |p.okExitCodes| && (p.okExitCodes[i] < 0 || p.okExitCodes[i] > 255);
      assert !r[i + 1].holds;
    }
  }

  lemma BreakerKeys(p: PoolConfig, key: Key)
    ensures key in Violations(BreakerRules(p)) <==>
              && key in {ExitFailureThreshold, ExitFailureWindow, ExitCooldown, ExitCooldownMax, ExitCooldownMultiplier}
              && Broken(p, key)
  {
    var r := BreakerRules(p);
    ViolatedKeys(r, key);
    assert r[0].key == ExitFailureThreshold && r[1].key == ExitFailureWindow && r[2].key == ExitCooldown;
    assert r[3].key == ExitCooldownMax && r[4].key == ExitCooldownMultiplier;
  }

  lemma DurationKeys(p: PoolConfig, w: DurationWalk, key: Key)
    ensures key in Violations(DurationRules(p, w)) <==> key in {Ttl, Poke, GraceShutdown} && Broken(p, key)
  {
    var r := DurationRules(p, w);
    ViolatedKeys(r, key);
    assert r[0].key == w.first && r[1].key == w.second && r[2].key == w.third;
    assert key in {Ttl, Poke, GraceShutdown} <==> key in {w.first, w.second, w.third};
  }

  lemma ProcessKeys(p: PoolConfig, key: Key)
    ensures key in Violations(ProcessRules(p)) <==> key in {TermSignal, ResultStream} && Broken(p, key)
  {
    var r := ProcessRules(p);
    ViolatedKeys(r, key);
    assert r[0].key == TermSignal && r[1].key == ResultStream;
  }

  /** An error is reported under a key exactly when the rule of that key is broken. */
  lemma KeysNameTheRule(p: PoolConfig, w: DurationWalk, key: Key)
    ensures key in PoolErrors(p, w) <==> Broken(p, key)
  {
    var a, b, c, d, e := SpawnRules(p), ExitCodeRules(p), BreakerRules(p), DurationRules(p, w), ProcessRules(p);
    ViolationsConcat(a, b);
    ViolationsConcat(a + b, c);
    ViolationsConcat(a + b + c, d);
    ViolationsConcat(a + b + c + d, e);
    SpawnKeys(p, key);
    ExitCodeKeys(p, key);
    BreakerKeys(p, key);
    DurationKeys(p, w, key);
    ProcessKeys(p, key);
  }

  /** The errors about one duration. */
  function DurationError(p: PoolConfig, key: Key): multiset<Key> {
    multiset(Violations([DurationRule(p, key)]))
  }

  lemma DurationErrors(p: PoolConfig, w: DurationWalk)
    ensures multiset(Violations(DurationRules(p, w)))
            == DurationError(p, w.first) + DurationError(p, w.second) + DurationError(p, w.third)
  {
    var a, b, c := DurationRule(p, w.first), DurationRule(p, w.second), DurationRule(p, w.third);
    assert DurationRules(p, w) == [a] + [b] + [c];
    ViolationsConcat([a], [b]);
    ViolationsConcat([a] + [b], [c]);
  }

  lemma WalkIsPermutation(w: DurationWalk)
    ensures multiset{w.first, w.second, w.third} == multiset{Ttl, Poke, GraceShutdown}
  {
    assert Ttl in {w.first, w.second, w.third} && Poke in {w.first, w.second, w.third};
    assert GraceShutdown in {w.first, w.second, w.third};
  }

  lemma SameSum(p: PoolConfig, w: DurationWalk)
    ensures DurationError(p, w.first) + DurationError(p, w.second) + DurationError(p, w.third)
            == DurationError(p, Ttl) + DurationError(p, Poke) + DurationError(p, GraceShutdown)
  {
    WalkIsPermutation(w);
    SwapTerms(DurationError(p, Ttl), DurationError(p, Poke), DurationError(p, GraceShutdown));
    assert w.first in multiset{w.first, w.second, w.third} && w.second in multiset{w.first, w.second, w.third};
  }

  lemma SwapTerms(a: multiset<Key>, b: multiset<Key>, c: multiset<Key>)
    ensures a + b + c == a + c + b == b + a + c == b + c + a == c + a + b == c + b + a
  {
  }

  /** The walk decides the order of at most three errors and nothing else. */
  lemma WalkOnlyReorders(p: PoolConfig, w: DurationWalk, w': DurationWalk)
    ensures multiset(PoolErrors(p, w)) == multiset(PoolErrors(p, w'))
  {
    var front := SpawnRules(p) + ExitCodeRules(p) + BreakerRules(p);
    ViolationsConcat(front, DurationRules(p, w));
    ViolationsConcat(front + DurationRules(p, w), ProcessRules(p));
    ViolationsConcat(front, DurationRules(p, w'));
    ViolationsConcat(front + DurationRules(p, w'), ProcessRules(p));
    DurationErrors(p, w);
    DurationErrors(p, w');
    SameSum(p, w);
    SameSum(p, w');
  }

  /** A pool has no error exactly when it obeys every rule; among them are all
      the assumptions the breaker results make. */
  lemma PoolErrorsExact(p: PoolConfig, w: DurationWalk)
    ensures PoolErrors(p, w) == [] <==> SoundPool(p)
  {
    NoViolations(Rules(p, w));
    AllRulesHold(p, w);
  }

  /** The built-in breaker: 3 failures in 10s pause for 5s, doubling up to 5m. */
  const BuiltInBreaker := Breaker.Params(3, 10 * Second, 5 * Second, 300 * Second, 2.0)

  /** A pool block with nothing but a command passes validation on the built-in
      values and listens on its own name. */
  lemma MinimalPoolIsSound(name: string, command: seq<string>, w: DurationWalk)
    requires command != []
    ensures var c := Config(Unset, map[name := PoolBlock(Unset, "", command)]);
            var p := Resolve(c, name);
            && PoolErrors(p, w) == [] && p.enabled && p.channel == name
            && p.BreakerParams().Enabled() && p.BreakerParams() == BuiltInBreaker
  {
    PoolErrorsExact(Resolve(Config(Unset, map[name := PoolBlock(Unset, "", command)]), name), w);
  }

  datatype Error =
    | Duplicate(pool: string, channel: string, owner: string)
    | Field(pool: string, key: Key)
    | NoEnabledPool

  function Fields(pool: string, keys: seq<Key>): seq<Error> {
    seq(|keys|, i requires 0 <= i < |keys| => Field(pool, keys[i]))
  }

  /** The last of the first `n` pools to ask for `channel`. */
  function Claimant(cfgs: seq<PoolConfig>, n: nat, channel: string): (r: Option<nat>)
    requires n <= |cfgs|
    ensures r.Some? ==>
              && r.value < n && cfgs[r.value].channel == channel
              && forall j :: r.value < j < n ==> cfgs[j].channel != channel
  {
    if n == 0 then None
    else if cfgs[n - 1].channel == channel then Some(n - 1)
    else Claimant(cfgs, n - 1, channel)
  }

  function LatestOwner(cfgs: seq<PoolConfig>, n: nat, channel: string): Option<string>
    requires n <= |cfgs|
  {
    match Claimant(cfgs, n, channel)
    case None => None
    case Some(i) => Some(cfgs[i].name)
  }

  /** A channel asked for again is blamed on the later pool, naming the latest
      owner; then come the pool's own errors. */
  function ErrorsAbout(p: PoolConfig, owner: Option<string>, w: DurationWalk): seq<Error> {
    (if owner.Some? then [Duplicate(p.name, p.channel, owner.value)] else []) + Fields(p.name, PoolErrors(p, w))
  }

  /** The violations of each of the first `n` pools. */
  function ErrorsEach(cfgs: seq<PoolConfig>, n: nat, walk: string -> DurationWalk): seq<seq<Error>>
    requires n <= |cfgs|
  {
    seq(n, i requires 0 <= i < n => ErrorsAbout(cfgs[i], LatestOwner(cfgs, i, cfgs[i].channel), walk(cfgs[i].name)))
  }

  function Joined(parts: seq<seq<Error>>): seq<Error> {
    if parts == [] then [] else Joined(parts[..|parts| - 1]) + parts[|parts| - 1]
  }

  function ErrorsOf(cfgs: seq<PoolConfig>, n: nat, walk: string -> DurationWalk): seq<Error>
    requires n <= |cfgs|
  {
    Joined(ErrorsEach(cfgs, n, walk))
  }

  function AllErrors(cfgs: seq<PoolConfig>, walk: string -> DurationWalk): seq<Error> {
    ErrorsOf(cfgs, |cfgs|, walk)
  }

  predicate DistinctChannels(cfgs: seq<PoolConfig>, n: nat)
    requires n <= |cfgs|
  {
    forall i, j :: 0 <= i < j < n ==> cfgs[i].channel != cfgs[j].channel
  }

  predicate SoundPools(cfgs: seq<PoolConfig>) {
    && AllSound(cfgs, |cfgs|)
    && DistinctChannels(cfgs, |cfgs|)
    && (exists i :: 0 <= i < |cfgs| && cfgs[i].enabled)
  }

  lemma {:induction false} NoClaimant(cfgs: seq<PoolConfig>, n: nat, channel: string)
    requires n <= |cfgs|
    ensures Claimant(cfgs, n, channel) == None <==> forall i :: 0 <= i < n ==> cfgs[i].channel != channel
  {
    if n > 0 {
      NoClaimant(cfgs, n - 1, channel);
    }
  }

  predicate AllSound(cfgs: seq<PoolConfig>, n: nat)
    requires n <= |cfgs|
  {
    forall i :: 0 <= i < n ==> SoundPool(cfgs[i])
  }

  /** Pool number i is sound and the first to ask for its channel. */
  predicate Clean(cfgs: seq<PoolConfig>, i: nat)
    requires i < |cfgs|
  {
    LatestOwner(cfgs, i, cfgs[i].channel) == None && SoundPool(cfgs[i])
  }

  lemma ErrorsAboutClean(cfgs: seq<PoolConfig>, n: nat, w: DurationWalk)
    requires n < |cfgs|
    ensures ErrorsAbout(cfgs[n], LatestOwner(cfgs, n, cfgs[n].channel), w) == [] <==> Clean(cfgs, n)
  {
    PoolErrorsExact(cfgs[n], w);
    assert |Fields(cfgs[n].name, PoolErrors(cfgs[n], w))| == |PoolErrors(cfgs[n], w)|;
  }

  lemma {:induction false} NothingJoined(parts: seq<seq<Error>>)
    ensures Joined(parts) == [] <==> forall i :: 0 <= i < |parts| ==> parts[i] == []
  {
    if parts != [] {
      var n := |parts| - 1;
      NothingJoined(parts[..n]);
      assert |Joined(parts)| == |Joined(parts[..n])| + |parts[n]|;
      assert forall i :: 0 <= i < n ==> parts[..n][i] == parts[i];
    }
  }

  lemma {:induction false} ErrorsOfClean(cfgs: seq<PoolConfig>, n: nat, walk: string -> DurationWalk)
    requires n <= |cfgs|
    ensures ErrorsOf(cfgs, n, walk) == [] <==> forall i :: 0 <= i < n ==> Clean(cfgs, i)
  {
    var parts := ErrorsEach(cfgs, n, walk);
    NothingJoined(parts);
    forall i | 0 <= i < n
      ensures parts[i] == [] <==> Clean(cfgs, i)
    {
      ErrorsAboutClean(cfgs, i, walk(cfgs[i].name));
    }
  }

  lemma {:induction false} OneMorePool(cfgs: seq<PoolConfig>, n: nat, walk: string -> DurationWalk)
    requires n < |cfgs|
    ensures ErrorsOf(cfgs, n + 1, walk) ==
              ErrorsOf(cfgs, n, walk) + ErrorsAbout(cfgs[n], LatestOwner(cfgs, n, cfgs[n].channel), walk(cfgs[n].name))
  {
    assert ErrorsEach(cfgs, n + 1, walk)[..n] == ErrorsEach(cfgs, n, walk);
  }

  lemma NoErrors(cfgs: seq<PoolConfig>, n: nat, walk: string -> DurationWalk)
    requires n <= |cfgs|
    ensures ErrorsOf(cfgs, n, walk) == [] <==> AllSound(cfgs, n) && DistinctChannels(cfgs, n)
  {
    ErrorsOfClean(cfgs, n, walk);
    forall i | 0 <= i < n
      ensures Clean(cfgs, i) <==>
                SoundPool(cfgs[i]) && forall j :: 0 <= j < i ==> cfgs[j].channel != cfgs[i].channel
    {
      NoClaimant(cfgs, i, cfgs[i].channel);
    }
  }

  /** Pool i is blamed for `e`: a rule it breaks, or a channel that pool j was the
      last to ask for before it. */
  predicate Explains(cfgs: seq<PoolConfig>, i: nat, e: Error)
    requires i < |cfgs|
  {
    match e
    case Field(pool, key) => pool == cfgs[i].name && Broken(cfgs[i], key)
    case Duplicate(pool, channel, owner) =>
      && pool == cfgs[i].name && channel == cfgs[i].channel
      && exists j :: 0 <= j < i && cfgs[j].channel == channel && cfgs[j].name == owner
                     && forall k :: j < k < i ==> cfgs[k].channel != channel
    case NoEnabledPool => false
  }

  lemma ErrorsAboutExplained(cfgs: seq<PoolConfig>, i: nat, w: DurationWalk, e: Error)
    requires i < |cfgs|
    ensures e in ErrorsAbout(cfgs[i], LatestOwner(cfgs, i, cfgs[i].channel), w) <==> Explains(cfgs, i, e)
  {
    var p := cfgs[i];
    var keys := PoolErrors(p, w);
    if e.Field? {
      KeysNameTheRule(p, w, e.key);
      if e.pool == p.name && e.key in keys {
        var k :| 0 <= k < |keys| && keys[k] == e.key;
        assert Fields(p.name, keys)[k] == e;
      }
    }
    NoClaimant(cfgs, i, p.channel);
  }

  lemma {:induction false} JoinedHas(parts: seq<seq<Error>>, e: Error)
    ensures e in Joined(parts) <==> exists i :: 0 <= i < |parts| && e in parts[i]
  {
    if parts != [] {
      var n := |parts| - 1;
      JoinedHas(parts[..n], e);
      if i: nat :| i < n && e in parts[..n][i] {
        assert e in parts[i];
      }
    }
  }

  /** Which errors there are: exactly those some pool explains. */
  lemma {:induction false} ErrorsExplained(cfgs: seq<PoolConfig>, walk: string -> DurationWalk, e: Error)
    ensures e in AllErrors(cfgs, walk) <==> exists i :: 0 <= i < |cfgs| && Explains(cfgs, i, e)
  {
    var parts := ErrorsEach(cfgs, |cfgs|, walk);
    JoinedHas(parts, e);
    forall i | 0 <= i < |cfgs|
      ensures e in parts[i] <==> Explains(cfgs, i, e)
    {
      ErrorsAboutExplained(cfgs, i, walk(cfgs[i].name), e);
    }
  }

  /** The enabled ones among the first `n` pools. */
  function EnabledAmong(cfgs: seq<PoolConfig>, n: nat): set<nat>
    requires n <= |cfgs|
  {
    set i | 0 <= i < n && cfgs[i].enabled
  }

  method EnabledPools(cfgs: seq<PoolConfig>) returns (count: nat)
    ensures count == |EnabledAmong(cfgs, |cfgs|)|
  {
    count := 0;
    for n := 0 to |cfgs|
      invariant count == |EnabledAmong(cfgs, n)|
    {
      assert EnabledAmong(cfgs, n + 1) == EnabledAmong(cfgs, n) + if cfgs[n].enabled then {n} else {};
      if cfgs[n].enabled {
        count := count + 1;
      }
    }
  }

  /** The channel table after the first `n` pools. */
  predicate Table(cfgs: seq<PoolConfig>, n: nat, channels: map<string, string>)
    requires n <= |cfgs|
  {
    && (forall c :: c in channels ==> LatestOwner(cfgs, n, c) == Some(channels[c]))
    && (forall i :: 0 <= i < n ==> cfgs[i].channel in channels)
  }

  lemma TableOwner(cfgs: seq<PoolConfig>, n: nat, channels: map<string, string>, channel: string)
    requires n <= |cfgs| && Table(cfgs, n, channels)
    ensures LatestOwner(cfgs, n, channel) == if channel in channels then Some(channels[channel]) else None
  {
    NoClaimant(cfgs, n, channel);
  }

  lemma TableGrows(cfgs: seq<PoolConfig>, n: nat, channels: map<string, string>)
    requires n < |cfgs| && Table(cfgs, n, channels)
    ensures Table(cfgs, n + 1, channels[cfgs[n].channel := cfgs[n].name])
  {
  }

  method CollectErrors(cfgs: seq<PoolConfig>, walk: string -> DurationWalk) returns (errs: seq<Error>)
    ensures errs == AllErrors(cfgs, walk)
  {
    errs := [];
    var channels: map<string, string> := map[];
    for n := 0 to |cfgs|
      invariant errs == ErrorsOf(cfgs, n, walk)
      invariant Table(cfgs, n, channels)
    {
      var p := cfgs[n];
      TableOwner(cfgs, n, channels, p.channel);
      TableGrows(cfgs, n, channels);
      OneMorePool(cfgs, n, walk);
      var owner := if p.channel in channels then Some(channels[p.channel]) else None;
      errs := errs + ErrorsAbout(p, owner, walk(p.name));
      channels := channels[p.channel := p.name];
    }
  }

  /** validatePools over the resolved pools: silent exactly on sound ones; the
      last complaint is there exactly when no pool is enabled. */
  method ValidatePools(cfgs: seq<PoolConfig>, walk: string -> DurationWalk) returns (errs: seq<Error>)
    ensures errs == [] <==> SoundPools(cfgs)
    ensures var someEnabled := exists i :: 0 <= i < |cfgs| && cfgs[i].enabled;
            errs == AllErrors(cfgs, walk) + if someEnabled then [] else [NoEnabledPool]
  {
    errs := CollectErrors(cfgs, walk);
    NoErrors(cfgs, |cfgs|, walk);
    var enabled := EnabledPools(cfgs);
    if enabled == 0 {
      assert EnabledAmong(cfgs, |cfgs|) == {};
      assert forall i :: 0 <= i < |cfgs| && cfgs[i].enabled ==> i in EnabledAmong(cfgs, |cfgs|);
      errs := errs + [NoEnabledPool];
    } else {
      var i :| i in EnabledAmong(cfgs, |cfgs|);
    }
  }
}
