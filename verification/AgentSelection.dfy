/**
The agent selection shared by browser tabs: each tab keeps its own copy, writes go to local
storage, and the browser queues a storage event in every other listening tab.
*/
module AgentSelection {
  import opened Wrappers

  const STORAGE_KEY := "cnb-selected-agent-id"

  /** White space and line terminators as removed by `String.prototype.trim`. */
  predicate IsTrimmed(c: char) {
    var n := c as int;
    9 <= n <= 13 || n == 32 || n == 0xA0 || n == 0x1680 || 0x2000 <= n <= 0x200A || n == 0x2028 || n == 0x2029 ||
    n == 0x202F || n == 0x205F || n == 0x3000 || n == 0xFEFF
  }

  function TrimStart(s: string): string {
    if s != "" && IsTrimmed(s[0]) then TrimStart(s[1..]) else s
  }

  function TrimEnd(s: string): string {
    if s != "" && IsTrimmed(s[|s| - 1]) then TrimEnd(s[..|s| - 1]) else s
  }

  function Normalize(agentId: Option<string>): Option<string> {
    if agentId.None? || TrimEnd(TrimStart(agentId.value)) == "" then None
    else Some(TrimEnd(TrimStart(agentId.value)))
  }

  /** The characters that `String.prototype.trim` removes, one by one. */
  ghost predicate White(c: char) {
    c as int in {0x9, 0xA, 0xB, 0xC, 0xD, 0x20, 0xA0, 0x1680, 0x2000, 0x2001, 0x2002, 0x2003, 0x2004, 0x2005, 0x2006,
                 0x2007, 0x2008, 0x2009, 0x200A, 0x2028, 0x2029, 0x202F, 0x205F, 0x3000, 0xFEFF}
  }

  ghost predicate AllWhite(s: string) {
    forall i :: 0 <= i < |s| ==> White(s[i])
  }

  lemma WhiteExact(c: char)
    ensures IsTrimmed(c) <==> White(c)
  {
  }

  lemma {:induction false} TrimStartTakes(s: string)
    ensures var r := TrimStart(s);
            |r| <= |s| && r == s[|s| - |r|..] && AllWhite(s[..|s| - |r|]) && (r != "" ==> !White(r[0]))
  {
    if s != "" {
      WhiteExact(s[0]);
      if White(s[0]) {
        TrimStartTakes(s[1..]);
        var n := |s| - |TrimStart(s)|;
        assert forall i :: 1 <= i < n ==> s[..n][i] == s[1..][..n - 1][i - 1];
      }
    }
  }

  lemma {:induction false} TrimEndTakes(s: string)
    ensures var r := TrimEnd(s);
            |r| <= |s| && r == s[..|r|] && AllWhite(s[|r|..]) && (r != "" ==> !White(r[|r| - 1]))
  {
    if s != "" {
      var front := s[..|s| - 1];
      WhiteExact(s[|s| - 1]);
      if White(s[|s| - 1]) {
        TrimEndTakes(front);
        var n := |TrimEnd(s)|;
        assert forall i :: 0 <= i < |front| - n ==> s[n..][i] == front[n..][i];
      }
    }
  }

  /** A text is what trimming leaves between the white space it removes. */
  lemma {:induction false} TrimTakes(s: string) returns (a: string, b: string)
    ensures var r := TrimEnd(TrimStart(s));
            s == a + r + b && AllWhite(a) && AllWhite(b) && (r != "" ==> !White(r[0]) && !White(r[|r| - 1]))
  {
    var l := TrimStart(s);
    TrimStartTakes(s);
    TrimEndTakes(l);
    a, b := s[..|s| - |l|], l[|TrimEnd(l)|..];
  }

  /** A selection is taken without the white space at its ends; one that is all white space is none. */
  lemma {:induction false} NormalizeExact(s: string)
    ensures Normalize(None) == None
    ensures Normalize(Some(s)) == None <==> AllWhite(s)
    ensures Normalize(Some(s)).Some? ==>
              var r := Normalize(Some(s)).value;
              r != "" && !White(r[0]) && !White(r[|r| - 1]) &&
              exists a, b :: s == a + r + b && AllWhite(a) && AllWhite(b)
  {
    var a, b := TrimTakes(s);
    var r := TrimEnd(TrimStart(s));
    if r != "" {
      assert s[|a|] == r[0];
    }
  }

  /** The stored item, if storage works in this browser. */
  class LocalStorage {
    const works: bool
    var item: Option<string>

    constructor (works: bool)
      ensures this.works == works && item == None
    {
      this.works, item := works, None;
    }

    method Write(value: Option<string>)
      modifies this
      ensures item == if works then value else old(item)
    {
      if works {
        item := value;
      }
    }
  }

  /** The module state of one tab. */
  class TabSelection {
    const storage: LocalStorage
    var selectedAgentId: Option<string>
    var listeningToStorage: bool
    var notifications: nat

    constructor (storage: LocalStorage)
      ensures this.storage == storage && !listeningToStorage && notifications == 0
      ensures selectedAgentId == if storage.works then storage.item else None
    {
      this.storage := storage;
      selectedAgentId := if storage.works then storage.item else None;
      listeningToStorage, notifications := false, 0;
    }

    /** This tab in the model of all tabs, with the storage events waiting for it. */
    ghost function AsTab(queue: seq<Option<string>>): Tab
      reads this
    {
      Tab(selectedAgentId, listeningToStorage, queue)
    }

    /** The first subscriber attaches the listener; nothing else about the tab changes. */
    method Subscribe()
      modifies `listeningToStorage
      ensures forall queue :: AsTab(queue) == old(AsTab(queue)).(listening := true)
    {
      if listeningToStorage {
        return;
      }
      listeningToStorage := true;
    }

    method SetSelectedAgentId(agentId: Option<string>)
      modifies this`selectedAgentId, this`notifications, storage
      ensures selectedAgentId == Normalize(agentId)
      ensures storage.item == (if selectedAgentId != old(selectedAgentId) && storage.works then selectedAgentId
                               else old(storage.item))
      ensures notifications == old(notifications) + (if selectedAgentId != old(selectedAgentId) then 1 else 0)
    {
      var normalized := Normalize(agentId);
      if normalized == selectedAgentId {
        return;
      }
      selectedAgentId := normalized;
      storage.Write(normalized);
      notifications := notifications + 1;
    }

    method HandleStorage(key: Option<string>, newValue: Option<string>)
      modifies this`selectedAgentId, this`notifications
      ensures selectedAgentId == if key == Some("cnb-selected-agent-id") then newValue else old(selectedAgentId)
      ensures key == Some("cnb-selected-agent-id") ==>
                forall queue :: AsTab(queue) == old(AsTab(queue)).(own := newValue)
      ensures notifications == old(notifications) + (if selectedAgentId != old(selectedAgentId) then 1 else 0)
    {
      if key != Some(STORAGE_KEY) || newValue == selectedAgentId {
        return;
      }
      selectedAgentId := newValue;
      notifications := notifications + 1;
    }
  }

  // ---------------------------------------------------------------- tabs and their event queues

  datatype Tab = Tab(own: Option<string>, listening: bool, queue: seq<Option<string>>)

  /** Tabs over working storage. */
  datatype World = World(tabs: seq<Tab>, stored: Option<string>)

  datatype Action =
    | Open                                    // a new tab reads the stored value
    | Listen(i: nat)                          // its first subscriber attaches the listener
    | Select(i: nat, agentId: Option<string>)
    | Deliver(i: nat)                         // the oldest queued storage event is handled

  function Push(t: Tab, v: Option<string>): Tab {
    if t.listening then t.(queue := t.queue + [v]) else t
  }

  /** Storage events are queued only when the stored value changes, and only in the other tabs. */
  function Written(w: World, i: nat, v: Option<string>): World
    requires i < |w.tabs|
  {
    var tabs := w.tabs[i := w.tabs[i].(own := v)];
    if v == w.stored then w.(tabs := tabs)
    else World(seq(|tabs|, j requires 0 <= j < |tabs| => if j == i then tabs[j] else Push(tabs[j], v)), v)
  }

  function Step(w: World, a: Action): World {
    match a
    case Open => w.(tabs := w.tabs + [Tab(w.stored, false, [])])
    case Listen(i) => if i < |w.tabs| then w.(tabs := w.tabs[i := w.tabs[i].(listening := true)]) else w
    case Select(i, agentId) =>
      if i < |w.tabs| && Normalize(agentId) != w.tabs[i].own then Written(w, i, Normalize(agentId)) else w
    case Deliver(i) =>
      if i < |w.tabs| && w.tabs[i].queue != [] then
        w.(tabs := w.tabs[i := w.tabs[i].(own := w.tabs[i].queue[0], queue := w.tabs[i].queue[1..])])
      else w
  }

  function Run(w: World, actions: seq<Action>): World {
    if actions == [] then w else Step(Run(w, actions[..|actions| - 1]), actions[|actions| - 1])
  }

  /** What each step does to one tab `j`, and to the stored value. */
  lemma StepExact(w: World, a: Action, j: nat)
    requires j < |w.tabs|
    ensures var t := Step(w, a);
            j < |t.tabs| &&
            match a
            case Open =>
              t == World(w.tabs + [Tab(w.stored, false, [])], w.stored)
            case Listen(i) =>
              t.stored == w.stored && |t.tabs| == |w.tabs| &&
              t.tabs[j] == Tab(w.tabs[j].own, w.tabs[j].listening || i == j, w.tabs[j].queue)
            case Deliver(i) =>
              t.stored == w.stored && |t.tabs| == |w.tabs| &&
              if i == j && w.tabs[j].queue != [] then
                t.tabs[j] == Tab(w.tabs[j].queue[0], w.tabs[j].listening, w.tabs[j].queue[1..])
              else t.tabs[j] == w.tabs[j]
            case Select(i, agentId) =>
              var v := Normalize(agentId);
              |t.tabs| == |w.tabs| &&
              if i >= |w.tabs| || v == w.tabs[i].own then t == w
              else
                t.stored == v &&
                if i == j then t.tabs[j] == Tab(v, w.tabs[j].listening, w.tabs[j].queue)
                else if w.tabs[j].listening && v != w.stored then
                  t.tabs[j] == Tab(w.tabs[j].own, true, w.tabs[j].queue + [v])
                else t.tabs[j] == w.tabs[j]
  {
  }

  // ---------------------------------------------------------------- convergence

  /** Where a tab is heading: its last queued value, or its own. */
  function Outlook(t: Tab): Option<string> {
    if t.queue == [] then t.own else t.queue[|t.queue| - 1]
  }

  ghost predicate Agree(w: World) {
    forall j :: 0 <= j < |w.tabs| ==> Outlook(w.tabs[j]) == w.stored
  }

  ghost predicate Synchronized(w: World) {
    forall j :: 0 <= j < |w.tabs| ==> w.tabs[j].own == w.stored
  }

  ghost predicate Drained(w: World) {
    forall j :: 0 <= j < |w.tabs| ==> w.tabs[j].queue == []
  }

  /** A write that cannot leave tabs apart: it changes nothing, or it starts from a tab with no event waiting. */
  ghost predicate Safe(w: World, a: Action) {
    match a
    case Select(i, agentId) =>
      i >= |w.tabs| || Normalize(agentId) in {w.tabs[i].own, w.stored} ||
      (w.tabs[i].queue == [] && forall j :: 0 <= j < |w.tabs| && j != i ==> w.tabs[j].listening)
    case _ => true
  }

  /** The exact condition: from agreeing tabs, a step keeps them agreeing if and only if it is safe. */
  lemma {:induction false} AgreeStep(w: World, a: Action)
    requires Agree(w)
    ensures Agree(Step(w, a)) <==> Safe(w, a)
  {
    var t := Step(w, a);
    match a
    case Open =>
      assert t.tabs[|w.tabs|] == Tab(w.stored, false, []);
      assert forall j :: 0 <= j < |w.tabs| ==> t.tabs[j] == w.tabs[j];
    case Listen(i) =>
    case Deliver(i) =>
    case Select(i, agentId) =>
      if i < |w.tabs| {
        var v := Normalize(agentId);
        assert Outlook(w.tabs[i]) == w.stored;
        if v != w.tabs[i].own && v != w.stored {
          WriteOutlook(w, i, v);
        }
      }
  }

  lemma {:induction false} WriteOutlook(w: World, i: nat, v: Option<string>)
    requires Agree(w) && i < |w.tabs| && v != w.stored
    ensures Agree(Written(w, i, v)) <==>
            w.tabs[i].queue == [] && forall j :: 0 <= j < |w.tabs| && j != i ==> w.tabs[j].listening
  {
    var t := Written(w, i, v);
    assert Outlook(w.tabs[i]) == w.stored;
    assert Outlook(t.tabs[i]) == if w.tabs[i].queue == [] then v else w.stored;
    forall j | 0 <= j < |w.tabs| && j != i
      ensures Outlook(t.tabs[j]) == if w.tabs[j].listening then v else w.stored
    {
      assert Outlook(w.tabs[j]) == w.stored;
    }
  }

  ghost predicate AllSafe(w: World, actions: seq<Action>) {
    forall k :: 0 <= k < |actions| ==> Safe(Run(w, actions[..k]), actions[k])
  }

  lemma {:induction false} AgreeRun(w: World, actions: seq<Action>)
    requires Agree(w) && AllSafe(w, actions)
    ensures Agree(Run(w, actions))
  {
    if actions != [] {
      var front := actions[..|actions| - 1];
      assert AllSafe(w, front) by {
        forall k | 0 <= k < |front| ensures Safe(Run(w, front[..k]), front[k]) {
          assert front[..k] == actions[..k];
        }
      }
      AgreeRun(w, front);
      AgreeStep(Run(w, front), actions[|actions| - 1]);
    }
  }

  ghost predicate OnlyDelivers(actions: seq<Action>) {
    forall k :: 0 <= k < |actions| ==> actions[k].Deliver?
  }

  lemma {:induction false} DeliverKeepsOutlook(w: World, actions: seq<Action>)
    requires OnlyDelivers(actions)
    ensures var t := Run(w, actions);
            t.stored == w.stored && |t.tabs| == |w.tabs| &&
            forall j :: 0 <= j < |t.tabs| ==> Outlook(t.tabs[j]) == Outlook(w.tabs[j])
  {
    if actions != [] {
      DeliverKeepsOutlook(w, actions[..|actions| - 1]);
    }
  }

  /** Draining the queues, in any order, leaves every tab with the stored value if and only if the tabs agree. */
  lemma {:induction false} DrainSynchronizes(w: World, actions: seq<Action>)
    requires OnlyDelivers(actions) && Drained(Run(w, actions))
    ensures Synchronized(Run(w, actions)) <==> Agree(w)
  {
    DeliverKeepsOutlook(w, actions);
    var t := Run(w, actions);
    forall j | 0 <= j < |w.tabs| ensures t.tabs[j].own == t.stored <==> Outlook(w.tabs[j]) == w.stored {
      assert Outlook(t.tabs[j]) == Outlook(w.tabs[j]) && t.tabs[j].queue == [];
    }
  }

  // ---------------------------------------------------------------- the two ways to be safe

  /** Whenever a tab selects, every other tab listens; tabs may open, and start to listen, in between. */
  ghost predicate ListeningAtWrites(w: World, actions: seq<Action>) {
    forall k, j ::
      0 <= k < |actions| && actions[k].Select? && 0 <= j < |Run(w, actions[..k]).tabs| && j != actions[k].i ==>
      Run(w, actions[..k]).tabs[j].listening
  }

  /** Only tab `writer` selects. */
  ghost predicate SingleWriter(actions: seq<Action>, writer: nat) {
    forall k :: 0 <= k < |actions| && actions[k].Select? ==> actions[k].i == writer
  }

  lemma {:induction false} WriterQueueEmpty(w: World, actions: seq<Action>, writer: nat)
    requires SingleWriter(actions, writer) && writer < |w.tabs| && w.tabs[writer].queue == []
    ensures writer < |Run(w, actions).tabs| && Run(w, actions).tabs[writer].queue == []
  {
    if actions != [] {
      WriterQueueEmpty(w, actions[..|actions| - 1], writer);
    }
  }

  /** With one writing tab, draining always synchronizes every tab with storage. */
  lemma {:induction false} SingleWriterConverges(w: World, actions: seq<Action>, writer: nat, drain: seq<Action>)
    requires Agree(w) && Drained(w) && writer < |w.tabs|
    requires SingleWriter(actions, writer) && ListeningAtWrites(w, actions) && OnlyDelivers(drain)
    requires Drained(Run(Run(w, actions), drain))
    ensures Synchronized(Run(Run(w, actions), drain))
  {
    forall k | 0 <= k < |actions| ensures Safe(Run(w, actions[..k]), actions[k]) {
      WriterQueueEmpty(w, actions[..k], writer);
    }
    AgreeRun(w, actions);
    DrainSynchronizes(Run(w, actions), drain);
  }

  /** Every selection starts with no event in flight. */
  ghost predicate QuietWrites(w: World, actions: seq<Action>) {
    forall k :: 0 <= k < |actions| && actions[k].Select? ==> Drained(Run(w, actions[..k]))
  }

  lemma {:induction false} QuietWritesConverge(w: World, actions: seq<Action>, drain: seq<Action>)
    requires Agree(w) && QuietWrites(w, actions) && ListeningAtWrites(w, actions) && OnlyDelivers(drain)
    requires Drained(Run(Run(w, actions), drain))
    ensures Synchronized(Run(Run(w, actions), drain))
  {
    forall k | 0 <= k < |actions| ensures Safe(Run(w, actions[..k]), actions[k]) {
    }
    AgreeRun(w, actions);
    DrainSynchronizes(Run(w, actions), drain);
  }

  lemma RunPush(w: World, actions: seq<Action>, a: Action)
    ensures Run(w, actions + [a]) == Step(Run(w, actions), a)
  {
  }

  /** Two tabs writing at once end up apart: the second writer falls back to the first one's choice. */
  lemma CrossingWritesDiverge(a: string, b: string)
    requires Normalize(Some(a)) == Some(a) && Normalize(Some(b)) == Some(b) && a != b
    ensures var quiet := Tab(None, true, []);
            var actions := [Select(0, Some(a))] + [Select(1, Some(b))] + [Deliver(0)] + [Deliver(1)];
            Run(World([quiet, quiet], None), actions) ==
            World([Tab(Some(b), true, []), Tab(Some(a), true, [])], Some(b))
  {
    var quiet := Tab(None, true, []);
    var w := World([quiet, quiet], None);
    var w1 := World([Tab(Some(a), true, []), Tab(None, true, [Some(a)])], Some(a));
    var w2 := World([Tab(Some(a), true, [Some(b)]), Tab(Some(b), true, [Some(a)])], Some(b));
    var w3 := World([Tab(Some(b), true, []), Tab(Some(b), true, [Some(a)])], Some(b));
    assert quiet.queue + [Some(a)] == [Some(a)] && quiet.queue + [Some(b)] == [Some(b)];
    var s1, s2, s3 := Step(w, Select(0, Some(a))), Step(w1, Select(1, Some(b))), Step(w2, Deliver(0));
    assert s1.tabs[0] == w1.tabs[0] && s1.tabs[1] == w1.tabs[1] && s1.tabs == w1.tabs;
    assert s2.tabs[0] == w2.tabs[0] && s2.tabs[1] == w2.tabs[1] && s2.tabs == w2.tabs;
    assert [Some(b)][1..] == [] && [Some(a)][1..] == [];
    assert s3.tabs[0] == w3.tabs[0] && s3.tabs[1] == w3.tabs[1] && s3.tabs == w3.tabs;
    var s4 := Step(w3, Deliver(1));
    assert s4.tabs == [Tab(Some(b), true, []), Tab(Some(a), true, [])];
    RunPush(w, [], Select(0, Some(a)));
    assert [] + [Select(0, Some(a))] == [Select(0, Some(a))];
    RunPush(w, [Select(0, Some(a))], Select(1, Some(b)));
    RunPush(w, [Select(0, Some(a))] + [Select(1, Some(b))], Deliver(0));
    RunPush(w, [Select(0, Some(a))] + [Select(1, Some(b))] + [Deliver(0)], Deliver(1));
  }
}
