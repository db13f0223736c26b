/**
 * The text report: every record is counted by class, every record that is not UP is filed
 * under one of seven fixed reason groups by its domain, and the groups are printed in a
 * fixed order with their domains sorted.
 */
module Summary {
  import opened Wrappers
  import opened Text
  import opened Settings
  import opened Probe
  import opened Targets
  import opened Health

  // ---------------- reason groups ----------------

  const DownErrorGroup := "DOWN \U{2014} ERROR/DNS"
  const DownNotFoundGroup := "DOWN \U{2014} HTTP 404"
  const Http5xxGroup := "FAIL_TMP \U{2014} HTTP 5xx"
  const PasswordGroup := "FAIL_TMP \U{2014} PASSWORD PAGE"
  const SoftErrorGroup := "FAIL_TMP \U{2014} SOFT ERROR (keyword)"
  const OtherGroup := "FAIL_TMP \U{2014} OTHER"

  /** The reason prefix of the password-page keyword; fixed, whatever the configured keywords. */
  const PasswordPrefix := "KEYWORD:enter using password"

  /** The timeout group's name shows the timeout in whole seconds (`TIMEOUT_MS//1000`). */
  function TimeoutGroup(timeoutMs: int): string
  {
    "FAIL_TMP \U{2014} TIMEOUT (" + IntToString(timeoutMs / 1000) + "s)"
  }

  /** The printing order: the two DOWN groups first, then the five FAIL_TMP groups. */
  function GroupOrder(timeoutMs: int): seq<string>
  {
    [DownErrorGroup, DownNotFoundGroup, TimeoutGroup(timeoutMs),
     Http5xxGroup, PasswordGroup, SoftErrorGroup, OtherGroup]
  }

  /**
   * `reason_group`. The name is always one of the printed groups; it is a DOWN group
   * exactly when the record is instant-down, and then the 404 one exactly for status 404.
   */
  function ReasonGroup(timeoutMs: int, st: HealthRecord): (g: string)
    ensures g in GroupOrder(timeoutMs)
    ensures st.instantDown <==> g in GroupOrder(timeoutMs)[..2]
    ensures st.instantDown ==> (g == DownNotFoundGroup <==> st.lastStatus == Some(404))
  {
    var reason := if st.lastReason.Some? then st.lastReason.value else "";
    assert DownErrorGroup[0] == 'D' && DownNotFoundGroup[0] == 'D';
    assert DownErrorGroup[7] == 'E' && DownNotFoundGroup[7] == 'H';
    assert TimeoutGroup(timeoutMs)[0] == 'F';
    if st.instantDown then
      if st.lastStatus == Some(404) then DownNotFoundGroup else DownErrorGroup
    else if reason == TimeoutReason then TimeoutGroup(timeoutMs)
    else if st.lastStatus.Some? && st.lastStatus.value >= 500 then Http5xxGroup
    else if PasswordPrefix <= reason then PasswordGroup
    else if KeywordTag <= reason then SoftErrorGroup
    else OtherGroup
  }

  /** The seven names differ, so no group is printed twice. */
  lemma GroupOrderDistinct(timeoutMs: int)
    ensures var o := GroupOrder(timeoutMs);
      forall i, j :: 0 <= i < j < |o| ==> o[i] != o[j]
  {
    var o := GroupOrder(timeoutMs);
    assert o[0][0] == 'D' && o[1][0] == 'D';
    assert o[0][7] == 'E' && o[1][7] == 'H';
    assert o[2][0] == 'F' && o[2][11] == 'T';
    assert o[3][0] == 'F' && o[3][11] == 'H';
    assert o[4][0] == 'F' && o[4][11] == 'P';
    assert o[5][0] == 'F' && o[5][11] == 'S';
    assert o[6][0] == 'F' && o[6][11] == 'O';
  }

  /**
   * Groups and classes agree for instant-down records and for FAIL_TMP ones, but a record
   * that is DOWN only by reaching the threshold is counted as DOWN while it is filed under a
   * FAIL_TMP group.
   */
  lemma GroupVersusClass(cfg: Config, st: HealthRecord)
    ensures var g := ReasonGroup(cfg.timeoutMs, st);
      var c := Classify(cfg.failThreshold, st);
      && (g in GroupOrder(cfg.timeoutMs)[..2] ==> c == Down)
      && (c == FailTmp ==> g in GroupOrder(cfg.timeoutMs)[2..])
      && (c == Down && !st.instantDown ==> g in GroupOrder(cfg.timeoutMs)[2..])
  {
  }

  // ---------------- counting and grouping ----------------

  /** The URLs among `keys` whose record classifies as `c`. */
  function ClassSet(cfg: Config, state: State, keys: set<string>, c: HealthClass): set<string>
  {
    set u | u in keys && u in state && Classify(cfg.failThreshold, state[u]) == c
  }

  /** The domains of the URLs among `keys` that are not UP and fall in group `g`. */
  function Members(cfg: Config, state: State, keys: set<string>, g: string): set<string>
  {
    set u | u in keys && u in state && Classify(cfg.failThreshold, state[u]) != Up
                && ReasonGroup(cfg.timeoutMs, state[u]) == g :: OnlyDomain(u)
  }

  /** `groups.get(key, [])`. */
  function Get(groups: map<string, set<string>>, key: string): set<string>
  {
    if key in groups then groups[key] else {}
  }

  /** Every record is counted exactly once: UP, FAIL_TMP and DOWN add up to the number of records. */
  lemma TallyTotal(cfg: Config, state: State)
    ensures |ClassSet(cfg, state, state.Keys, Up)| + |ClassSet(cfg, state, state.Keys, FailTmp)|
            + |ClassSet(cfg, state, state.Keys, Down)| == |state|
  {
    var a := ClassSet(cfg, state, state.Keys, Up);
    var b := ClassSet(cfg, state, state.Keys, FailTmp);
    var d := ClassSet(cfg, state, state.Keys, Down);
    assert a * b == {} && (a + b) * d == {};
    assert |a + b| == |a| + |b|;
    assert |a + b + d| == |a + b| + |d|;
    assert a + b + d == state.Keys;
  }

  // ---------------- the report ----------------

  function TitleLine(title: string, now: string): string
  {
    title + " (UTC): " + now
  }

  function CountsLine(total: int, up: int, failTmp: int, down: int): string
  {
    "Checked: " + IntToString(total)
      + " | \U{2705} UP: " + IntToString(up)
      + " | \U{26A0}\U{FE0F} FAIL_TMP: " + IntToString(failTmp)
      + " | \U{274C} DOWN: " + IntToString(down)
  }

  function RuleLine(cfg: Config): string
  {
    "Rule: ERROR & 404 = DOWN | Timeout=" + IntToString(cfg.timeoutMs / 1000)
      + "s | Threshold=" + IntToString(cfg.failThreshold)
  }

  const AllOkLine := "\n\U{2705} All domains look OK."

  function Heading(key: string, n: int): string
  {
    "\n" + key + " (" + IntToString(n) + "):"
  }

  function Bullet(d: string): string
  {
    "- " + d
  }

  function Bullets(doms: seq<string>): (r: seq<string>)
    ensures |r| == |doms|
  {
    seq(|doms|, i requires 0 <= i < |doms| => Bullet(doms[i]))
  }

  /** The three lines every report starts with. */
  function HeaderLines(title: string, now: string, cfg: Config, state: State): seq<string>
  {
    [TitleLine(title, now),
     CountsLine(|state|, |ClassSet(cfg, state, state.Keys, Up)|,
                |ClassSet(cfg, state, state.Keys, FailTmp)|, |ClassSet(cfg, state, state.Keys, Down)|),
     RuleLine(cfg)]
  }

  /** The domains of every group of the printing order. */
  function Groups(cfg: Config, state: State): map<string, set<string>>
  {
    map g | g in GroupOrder(cfg.timeoutMs) :: Members(cfg, state, state.Keys, g)
  }

  /** The lines for group `key`: nothing when it has no domain, else its heading and its domains in sorted order. */
  ghost function Block(key: string, members: set<string>): seq<string>
  {
    var doms := SortedSeq(members);
    if |doms| == 0 then [] else [Heading(key, |doms|)] + Bullets(doms)
  }

  /** The lines of every part, one part after the other. */
  function Concat<T>(parts: seq<seq<T>>): seq<T>
  {
    if |parts| == 0 then [] else Concat(parts[..|parts| - 1]) + parts[|parts| - 1]
  }

  /** The block of each group of `keys`. */
  ghost function BlockList(keys: seq<string>, groups: map<string, set<string>>): (r: seq<seq<string>>)
    ensures |r| == |keys|
  {
    seq(|keys|, i requires 0 <= i < |keys| => Block(keys[i], Get(groups, keys[i])))
  }

  /** The blocks of `keys`, in that order. */
  ghost function Blocks(keys: seq<string>, groups: map<string, set<string>>): seq<string>
  {
    Concat(BlockList(keys, groups))
  }

  /** The report's lines: the header, the groups, and the all-clear line when no group was printed. */
  ghost function SummaryLines(title: string, now: string, cfg: Config, state: State): seq<string>
  {
    var lines := HeaderLines(title, now, cfg, state) + Blocks(GroupOrder(cfg.timeoutMs), Groups(cfg, state));
    if |lines| <= 3 then lines + [AllOkLine] else lines
  }

  ghost function SummaryText(title: string, now: string, cfg: Config, state: State): string
  {
    Join(SummaryLines(title, now, cfg, state), "\n")
  }

  lemma CountStep(cfg: Config, state: State, done: set<string>, u: string, c: HealthClass)
    requires u in state && u !in done
    ensures |ClassSet(cfg, state, done + {u}, c)| ==
      |ClassSet(cfg, state, done, c)| + (if Classify(cfg.failThreshold, state[u]) == c then 1 else 0)
  {
    var a := ClassSet(cfg, state, done, c);
    assert u !in a;
    if Classify(cfg.failThreshold, state[u]) == c {
      assert ClassSet(cfg, state, done + {u}, c) == a + {u};
    } else {
      assert ClassSet(cfg, state, done + {u}, c) == a;
    }
  }

  lemma MembersStep(cfg: Config, state: State, done: set<string>, u: string, g: string)
    requires u in state
    ensures Members(cfg, state, done + {u}, g) ==
      Members(cfg, state, done, g)
        + (if Classify(cfg.failThreshold, state[u]) != Up && ReasonGroup(cfg.timeoutMs, state[u]) == g
           then {OnlyDomain(u)} else {})
  {
  }

  /** What the first loop of `build_summary` has gathered once it has seen the records in `done`. */
  ghost predicate Tallied(cfg: Config, state: State, done: set<string>,
                    up: int, failTmp: int, down: int, groups: map<string, set<string>>)
  {
    && up == |ClassSet(cfg, state, done, Up)|
    && failTmp == |ClassSet(cfg, state, done, FailTmp)|
    && down == |ClassSet(cfg, state, done, Down)|
    && forall g :: Get(groups, g) == Members(cfg, state, done, g)
  }

  lemma TalliedEmpty(cfg: Config, state: State)
    ensures Tallied(cfg, state, {}, 0, 0, 0, map[])
  {
    assert ClassSet(cfg, state, {}, Up) == {} && ClassSet(cfg, state, {}, FailTmp) == {}
      && ClassSet(cfg, state, {}, Down) == {};
  }

  /** One record of the first loop of `build_summary`: count its class and, unless UP, file its domain. */
  method TallyOne(cfg: Config, state: State, ghost done: set<string>, url: string,
                  up: int, failTmp: int, down: int, groups: map<string, set<string>>)
    returns (up': int, failTmp': int, down': int, groups': map<string, set<string>>)
    requires url in state && url !in done
    requires Tallied(cfg, state, done, up, failTmp, down, groups)
    ensures Tallied(cfg, state, done + {url}, up', failTmp', down', groups')
  {
    var st := state[url];
    var dom := OnlyDomain(url);
    var cls := Classify(cfg.failThreshold, st);
    CountStep(cfg, state, done, url, Up);
    CountStep(cfg, state, done, url, FailTmp);
    CountStep(cfg, state, done, url, Down);
    forall g
      ensures Members(cfg, state, done + {url}, g) ==
        Members(cfg, state, done, g)
          + (if cls != Up && ReasonGroup(cfg.timeoutMs, st) == g then {dom} else {})
    {
      MembersStep(cfg, state, done, url, g);
    }
    up', failTmp', down', groups' := up, failTmp, down, groups;
    if cls != Up {
      if cls == Down {
        down' := down + 1;
      } else {
        failTmp' := failTmp + 1;
      }
      var gname := ReasonGroup(cfg.timeoutMs, st);
      groups' := groups[gname := Get(groups, gname) + {dom}];
    } else {
      up' := up + 1;
    }
  }

  /** The first loop of `build_summary`: count the classes and collect each group's domains. */
  method Tally(cfg: Config, state: State)
    returns (up: int, failTmp: int, down: int, groups: map<string, set<string>>)
    ensures Tallied(cfg, state, state.Keys, up, failTmp, down, groups)
  {
    up, failTmp, down := 0, 0, 0;
    groups := map[];
    var rest := state.Keys;
    TalliedEmpty(cfg, state);
    assert state.Keys - rest == {};
    while rest != {}
      invariant rest <= state.Keys
      invariant Tallied(cfg, state, state.Keys - rest, up, failTmp, down, groups)
      decreases |rest|
    {
      var url :| url in rest;
      ghost var done := state.Keys - rest;
      up, failTmp, down, groups := TallyOne(cfg, state, done, url, up, failTmp, down, groups);
      assert done + {url} == state.Keys - (rest - {url});
      rest := rest - {url};
    }
    assert state.Keys - rest == state.Keys;
  }

  /** The bullet lines of the second loop of `build_summary`, one per domain. */
  method RenderBullets(doms: seq<string>) returns (lines: seq<string>)
    ensures lines == Bullets(doms)
  {
    lines := [];
    for j := 0 to |doms|
      invariant lines == Bullets(doms[..j])
    {
      assert Bullets(doms[..j + 1]) == Bullets(doms[..j]) + [Bullet(doms[j])];
      lines := lines + [Bullet(doms[j])];
    }
    assert doms[..|doms|] == doms;
  }

  /** The lines the second loop of `build_summary` prints for one group. */
  method RenderBlock(key: string, members: set<string>) returns (lines: seq<string>)
    ensures lines == Block(key, members)
  {
    var doms := SortStrings(members);
    if |doms| > 0 {
      var bullets := RenderBullets(doms);
      lines := [Heading(key, |doms|)] + bullets;
    } else {
      lines := [];
    }
  }

  /** The second loop of `build_summary`: each group of `keys` that has domains, heading first, domains sorted. */
  method RenderGroups(keys: seq<string>, groups: map<string, set<string>>) returns (lines: seq<string>)
    ensures lines == Blocks(keys, groups)
  {
    lines := [];
    for k := 0 to |keys|
      invariant lines == Blocks(keys[..k], groups)
    {
      var block := RenderBlock(keys[k], Get(groups, keys[k]));
      ghost var front := BlockList(keys[..k], groups);
      assert BlockList(keys[..k + 1], groups) == front + [block];
      assert (front + [block])[..k] == front;
      lines := lines + block;
    }
    assert keys[..|keys|] == keys;
  }

  /** The printed groups depend only on the domains of the groups in `keys`. */
  lemma BlocksAgree(keys: seq<string>, g1: map<string, set<string>>, g2: map<string, set<string>>)
    requires forall k :: 0 <= k < |keys| ==> Get(g1, keys[k]) == Get(g2, keys[k])
    ensures Blocks(keys, g1) == Blocks(keys, g2)
  {
    assert BlockList(keys, g1) == BlockList(keys, g2);
  }

  /**
   * `build_summary`: one pass over the records counts the classes and collects the domains of
   * each group; a second pass prints the groups in order with their domains sorted.
   */
  method BuildSummary(title: string, now: string, cfg: Config, state: State) returns (text: string)
    ensures text == SummaryText(title, now, cfg, state)
  {
    var up, failTmp, down, groups := Tally(cfg, state);
    var lines := [TitleLine(title, now), CountsLine(|state|, up, failTmp, down), RuleLine(cfg)];
    var order := GroupOrder(cfg.timeoutMs);
    var blocks := RenderGroups(order, groups);
    BlocksAgree(order, groups, Groups(cfg, state));
    lines := lines + blocks;
    if |lines| <= 3 {
      lines := lines + [AllOkLine];
    }
    text := Join(lines, "\n");
  }

  // ---------------- properties of the report ----------------

  /** Every record is UP. */
  predicate AllUp(cfg: Config, state: State)
  {
    forall u :: u in state ==> Classify(cfg.failThreshold, state[u]) == Up
  }

  lemma {:induction false} ConcatEmpty<T>(parts: seq<seq<T>>)
    ensures Concat(parts) == [] <==> forall i :: 0 <= i < |parts| ==> parts[i] == []
    decreases |parts|
  {
    if |parts| > 0 {
      var n := |parts| - 1;
      ConcatEmpty(parts[..n]);
      assert forall i :: 0 <= i < n ==> parts[..n][i] == parts[i];
    }
  }

  lemma {:induction false} ConcatAppend<T>(a: seq<seq<T>>, b: seq<seq<T>>)
    ensures Concat(a + b) == Concat(a) + Concat(b)
    decreases |b|
  {
    if |b| == 0 {
      assert a + b == a;
    } else {
      var n := |b| - 1;
      ConcatAppend(a, b[..n]);
      assert (a + b)[..|a + b| - 1] == a + b[..n];
      assert (a + b)[|a + b| - 1] == b[n];
    }
  }

  /** No group of `keys` is printed exactly when none of them has a domain. */
  lemma BlocksEmpty(keys: seq<string>, groups: map<string, set<string>>)
    ensures Blocks(keys, groups) == [] <==> forall k :: 0 <= k < |keys| ==> Get(groups, keys[k]) == {}
  {
    var parts := BlockList(keys, groups);
    ConcatEmpty(parts);
    forall k | 0 <= k < |keys|
      ensures parts[k] == [] <==> Get(groups, keys[k]) == {}
    {
      assert |SortedSeq(Get(groups, keys[k]))| == |Get(groups, keys[k])|;
    }
  }

  /** The block of the `k`-th group sits between the blocks before it and the blocks after it. */
  lemma BlocksAround(keys: seq<string>, groups: map<string, set<string>>, k: int)
    requires 0 <= k < |keys|
    ensures Blocks(keys, groups) ==
      Blocks(keys[..k], groups) + Block(keys[k], Get(groups, keys[k])) + Blocks(keys[k + 1..], groups)
  {
    var parts := BlockList(keys, groups);
    assert parts == BlockList(keys[..k], groups) + [parts[k]] + BlockList(keys[k + 1..], groups);
    ConcatAppend(BlockList(keys[..k], groups) + [parts[k]], BlockList(keys[k + 1..], groups));
    ConcatAppend(BlockList(keys[..k], groups), [parts[k]]);
    assert Concat([parts[k]]) == parts[k];
  }

  /** A group is printed exactly when it has a domain, so nothing is printed exactly when every record is UP. */
  lemma NoGroupsIffAllUp(cfg: Config, state: State)
    ensures Blocks(GroupOrder(cfg.timeoutMs), Groups(cfg, state)) == [] <==> AllUp(cfg, state)
  {
    var order := GroupOrder(cfg.timeoutMs);
    var groups := Groups(cfg, state);
    BlocksEmpty(order, groups);
    if !AllUp(cfg, state) {
      var u :| u in state && Classify(cfg.failThreshold, state[u]) != Up;
      var g := ReasonGroup(cfg.timeoutMs, state[u]);
      var k :| 0 <= k < |order| && order[k] == g;
      assert OnlyDomain(u) in Members(cfg, state, state.Keys, g);
      assert Get(groups, order[k]) == Members(cfg, state, state.Keys, g);
    } else {
      forall k | 0 <= k < |order|
        ensures Get(groups, order[k]) == {}
      {
        assert Get(groups, order[k]) == Members(cfg, state, state.Keys, order[k]);
      }
    }
  }

  /**
   * The report is the header, then the printed groups, then the all-clear line exactly when
   * every record is UP.
   */
  lemma SummaryShape(title: string, now: string, cfg: Config, state: State)
    ensures SummaryLines(title, now, cfg, state) ==
      HeaderLines(title, now, cfg, state) + Blocks(GroupOrder(cfg.timeoutMs), Groups(cfg, state))
        + (if AllUp(cfg, state) then [AllOkLine] else [])
  {
    NoGroupsIffAllUp(cfg, state);
  }

  /**
   * A record that is not UP shows up in the report: the heading of its group and a bullet
   * with its domain are among the lines.
   */
  lemma EveryNonUpListed(title: string, now: string, cfg: Config, state: State, u: string)
    requires u in state && Classify(cfg.failThreshold, state[u]) != Up
    ensures var g := ReasonGroup(cfg.timeoutMs, state[u]);
      var lines := SummaryLines(title, now, cfg, state);
      && Heading(g, |Members(cfg, state, state.Keys, g)|) in lines
      && Bullet(OnlyDomain(u)) in lines
  {
    var order := GroupOrder(cfg.timeoutMs);
    var groups := Groups(cfg, state);
    var g := ReasonGroup(cfg.timeoutMs, state[u]);
    var k :| 0 <= k < |order| && order[k] == g;
    var m := Members(cfg, state, state.Keys, g);
    assert OnlyDomain(u) in m;
    assert Get(groups, order[k]) == m;
    var doms := SortedSeq(m);
    SortedSeqSpec(m);
    var i :| 0 <= i < |doms| && doms[i] == OnlyDomain(u);
    assert Bullets(doms)[i] == Bullet(OnlyDomain(u));
    assert Block(g, m) == [Heading(g, |m|)] + Bullets(doms);
    BlocksAround(order, groups, k);
    SummaryShape(title, now, cfg, state);
  }

  /**
   * Groups collect domains, not URLs: a domain that no other record shares is filed under
   * its own record's group and under no other.
   */
  lemma DomainInOneGroup(cfg: Config, state: State, u: string, g: string)
    requires u in state && Classify(cfg.failThreshold, state[u]) != Up
    requires forall v :: v in state && v != u ==> OnlyDomain(v) != OnlyDomain(u)
    ensures OnlyDomain(u) in Members(cfg, state, state.Keys, g) <==> g == ReasonGroup(cfg.timeoutMs, state[u])
  {
    if OnlyDomain(u) in Members(cfg, state, state.Keys, g) {
      var v :| v in state && Classify(cfg.failThreshold, state[v]) != Up
               && ReasonGroup(cfg.timeoutMs, state[v]) == g && OnlyDomain(v) == OnlyDomain(u);
      assert v == u;
    }
  }

  /** The report sent right after a reset: no records, zero counts, and the all-clear line. */
  lemma EmptyStateReport(title: string, now: string, cfg: Config)
    ensures SummaryLines(title, now, cfg, map[]) ==
      [TitleLine(title, now), CountsLine(0, 0, 0, 0), RuleLine(cfg), AllOkLine]
  {
    var e: State := map[];
    assert forall c :: ClassSet(cfg, e, e.Keys, c) == {};
    SummaryShape(title, now, cfg, e);
  }

  /** The text of that report: the four lines joined by newlines. */
  lemma EmptyStateText(title: string, now: string, cfg: Config)
    ensures SummaryText(title, now, cfg, map[]) ==
      TitleLine(title, now) + "\n" + CountsLine(0, 0, 0, 0) + "\n" + RuleLine(cfg) + "\n" + AllOkLine
  {
    EmptyStateReport(title, now, cfg);
    var l := [TitleLine(title, now), CountsLine(0, 0, 0, 0), RuleLine(cfg), AllOkLine];
    assert l[..1] == [l[0]];
    assert Join(l[..1], "\n") == l[0];
    assert l[..2][..1] == l[..1];
    assert Join(l[..2], "\n") == l[0] + "\n" + l[1];
    assert l[..3][..2] == l[..2];
    assert Join(l[..3], "\n") == l[0] + "\n" + l[1] + "\n" + l[2];
    assert l[..3] == l[..|l| - 1];
  }

  // ---------------- one domain, several records ----------------

  /** A host without `/`, `?`, `#`, tab, CR or LF, such as `a.test`. */
  predicate PlainHost(host: string)
  {
    forall i :: 0 <= i < |host| ==> !IsNetlocEnd(host[i]) && !IsUnsafe(host[i])
  }

  /** `a.test` and `http://a.test` normalise to these two different URLs. */
  function SecureUrl(host: string): string { "https://" + host + "/" }
  function PlainUrl(host: string): string { "http://" + host + "/" }

  /** The two URLs of one host have one domain. */
  lemma SchemeVariantsDomain(host: string)
    requires PlainHost(host)
    ensures SecureUrl(host) != PlainUrl(host)
    ensures OnlyDomain(SecureUrl(host)) == Lower(host) && OnlyDomain(PlainUrl(host)) == Lower(host)
  {
    HttpSchemesValid();
    assert SecureUrl(host)[4] != PlainUrl(host)[4];
    assert SecureUrl(host) == "https" + "://" + host + "/";
    assert PlainUrl(host) == "http" + "://" + host + "/";
    NetlocOfTarget("https", host, "/");
    NetlocOfTarget("http", host, "/");
  }

  /** A record that is not UP files its domain under its own group. */
  lemma FiledUnder(cfg: Config, state: State, u: string, d: string, g: string)
    requires u in state && Classify(cfg.failThreshold, state[u]) != Up
    requires ReasonGroup(cfg.timeoutMs, state[u]) == g && OnlyDomain(u) == d
    ensures d in Members(cfg, state, state.Keys, g)
  {
  }

  /** A record left by one timeout. */
  const TimedOutOnce := HealthRecord(1, None, Some(TimeoutReason), false, None, "t")

  /** A record left by one 404 response. */
  const NotFoundOnce := HealthRecord(1, Some(404), Some(NotFoundReason), true, None, "t")

  /**
   * Groups collect domains, not URLs: a first run over the lines `a.test` and `http://a.test`,
   * where one times out and the other answers 404, writes these two records (the update of no
   * record by each result), and their common domain is then printed under two headings.
   */
  lemma SharedDomainTwoGroups(host: string)
    requires PlainHost(host)
    ensures TimedOutOnce == NextRecord(None, ProbeResult(SecureUrl(host), None, Some(TimeoutReason)), "t")
    ensures NotFoundOnce == NextRecord(None, ProbeResult(PlainUrl(host), Some(404), Some(NotFoundReason)), "t")
    ensures var st := map[SecureUrl(host) := TimedOutOnce, PlainUrl(host) := NotFoundOnce];
      && Lower(host) in Members(Defaults, st, st.Keys, TimeoutGroup(Defaults.timeoutMs))
      && Lower(host) in Members(Defaults, st, st.Keys, DownNotFoundGroup)
      && TimeoutGroup(Defaults.timeoutMs) != DownNotFoundGroup
  {
    var st := map[SecureUrl(host) := TimedOutOnce, PlainUrl(host) := NotFoundOnce];
    assert TimeoutReason[0] != ErrorTag[0];
    SchemeVariantsDomain(host);
    assert st[SecureUrl(host)] == TimedOutOnce && st[PlainUrl(host)] == NotFoundOnce;
    FiledUnder(Defaults, st, SecureUrl(host), Lower(host), TimeoutGroup(Defaults.timeoutMs));
    FiledUnder(Defaults, st, PlainUrl(host), Lower(host), DownNotFoundGroup);
    assert TimeoutGroup(Defaults.timeoutMs)[0] != DownNotFoundGroup[0];
  }

  /** When every record has class `c`, the records of class `c` are all of them. */
  lemma AllOfClass(cfg: Config, state: State, c: HealthClass)
    requires forall u :: u in state ==> Classify(cfg.failThreshold, state[u]) == c
    ensures ClassSet(cfg, state, state.Keys, c) == state.Keys
  {
  }

  /** When every record is non-UP, in group `g` and of domain `d`, group `g` holds just `d`. */
  lemma OneDomainGroup(cfg: Config, state: State, d: string, g: string)
    requires state != map[]
    requires forall u :: u in state ==>
      && Classify(cfg.failThreshold, state[u]) != Up
      && ReasonGroup(cfg.timeoutMs, state[u]) == g && OnlyDomain(u) == d
    ensures Members(cfg, state, state.Keys, g) == {d}
  {
    var u :| u in state;
    FiledUnder(cfg, state, u, d, g);
  }

  /**
   * A heading counts domains while the header counts records: two timed-out records of one
   * host give a FAIL_TMP count of 2 and a single domain under the timeout heading.
   */
  lemma SharedDomainCountedOnce(host: string)
    requires PlainHost(host)
    ensures var st := map[SecureUrl(host) := TimedOutOnce, PlainUrl(host) := TimedOutOnce];
      && |ClassSet(Defaults, st, st.Keys, FailTmp)| == 2
      && Members(Defaults, st, st.Keys, TimeoutGroup(Defaults.timeoutMs)) == {Lower(host)}
  {
    var st := map[SecureUrl(host) := TimedOutOnce, PlainUrl(host) := TimedOutOnce];
    SchemeVariantsDomain(host);
    assert st.Keys == {SecureUrl(host), PlainUrl(host)};
    assert forall u :: u in st ==> st[u] == TimedOutOnce;
    AllOfClass(Defaults, st, FailTmp);
    OneDomainGroup(Defaults, st, Lower(host), TimeoutGroup(Defaults.timeoutMs));
  }

  /** `a.test` is such a host. */
  lemma ADotTestPlain()
    ensures PlainHost("a.test") && Lower("a.test") == "a.test"
  {
  }
}
