/**
 The child's commands over its configuration (src/node-control.ts:116-184, 780-801, 1100-1142): the compare-and-swap
 application, the status it reports, and ingress.
 */
module ChildConfig {
  import opened Common
  import opened ManagedConfig

  // ---------- The plugin's own section ----------

  function PluginConfig(c: Record): Record { Child(Child(Child(Child(c, Plugins), Entries), Crabhelm), ConfigKey) }

  function SetPluginConfig(c: Record, own: Record): Record {
    var entries := Child(Child(c, Plugins), Entries);
    Put(c, Plugins, Put(Child(c, Plugins), Entries, Put(entries, Crabhelm, Put(Child(entries, Crabhelm), ConfigKey, own))))
  }

  lemma PluginConfigIsOwn(c: Record, own: Record)
    ensures PluginConfig(SetPluginConfig(c, own)) == own
    ensures Child(SetPluginConfig(c, own), Channels) == Child(c, Channels)
    ensures PluginConfig(Put(c, Channels, own)) == PluginConfig(c)
  {
  }

  lemma RouterSeesOwnSections(plugins: Record, other: Record, models: Record)
    requires Get(plugins, Allow) == Get(other, Allow)
    requires Child(Child(plugins, Entries), ClawRouterKey) == Child(Child(other, Entries), ClawRouterKey)
    ensures ReadRouter(plugins, models) == ReadRouter(other, models)
  {
    assert Allows(plugins, "clawrouter") == Allows(other, "clawrouter");
  }

  lemma OtelSeesOwnSections(plugins: Record, other: Record, diagnostics: Record)
    requires Get(plugins, Allow) == Get(other, Allow)
    requires Child(Child(plugins, Entries), DiagnosticsOtel) == Child(Child(other, Entries), DiagnosticsOtel)
    ensures ReadOtel(plugins, diagnostics) == ReadOtel(other, diagnostics)
  {
    assert Allows(plugins, "diagnostics-otel") == Allows(other, "diagnostics-otel");
  }

  lemma OutsidePlugins(c: Record, own: Record, k: Key)
    ensures k != Plugins ==> Child(SetPluginConfig(c, own), k) == Child(c, k)
  {
  }

  lemma InsidePlugins(c: Record, own: Record, k: Key)
    ensures var after := Child(SetPluginConfig(c, own), Plugins);
            && Get(after, Allow) == Get(Child(c, Plugins), Allow)
            && (k != Crabhelm ==> Child(Child(after, Entries), k) == Child(Child(Child(c, Plugins), Entries), k))
  {
  }

  /** The plugin's own section is no managed state. */
  lemma OwnSectionIsNotManaged(c: Record, own: Record)
    ensures Read(SetPluginConfig(c, own)) == Read(c)
  {
    var after := SetPluginConfig(c, own);
    OutsidePlugins(c, own, Agents);
    OutsidePlugins(c, own, Channels);
    OutsidePlugins(c, own, Logging);
    OutsidePlugins(c, own, Models);
    OutsidePlugins(c, own, Diagnostics);
    InsidePlugins(c, own, ClawRouterKey);
    InsidePlugins(c, own, DiagnosticsOtel);
    RouterSeesOwnSections(Child(after, Plugins), Child(c, Plugins), Child(c, Models));
    OtelSeesOwnSections(Child(after, Plugins), Child(c, Plugins), Child(c, Diagnostics));
  }

  // ---------- Compare-and-swap application and status ----------

  datatype Order = Order(desired: Managed, generation: string, desiredHash: string, expected: Managed)

  function Marked(own: Record, o: Order, managed: Managed): Record {
    own[AppliedGeneration := Num(o.generation)][AppliedDesiredHash := Text(o.desiredHash)]
    [AppliedManagedHash := Hash(managed)]
  }

  /** The child apply command. */
  function CasApply(c: Record, o: Order): Result<Record, string> {
    if Read(c) != o.expected then Failure("CHILD_POLICY_CAS_CONFLICT")
    else
      var applied := Apply(c, o.desired);
      Success(SetPluginConfig(applied, Marked(PluginConfig(applied), o, Read(applied))))
  }

  /** The `appliedDesiredHash` that `childStatus` reports, if any. */
  function Status(c: Record): Option<string> {
    if Get(PluginConfig(c), AppliedManagedHash) == Some(Hash(Read(c)))
    then MaybeText(Get(PluginConfig(c), AppliedDesiredHash)) else None
  }

  /** What an application records in the plugin's section. */
  lemma MarksAreWritten(applied: Record, o: Order, managed: Managed)
    ensures var own := PluginConfig(SetPluginConfig(applied, Marked(PluginConfig(applied), o, managed)));
            Get(own, AppliedManagedHash) == Some(Hash(managed)) && Get(own, AppliedDesiredHash) == Some(Text(o.desiredHash))
  {
    PluginConfigIsOwn(applied, Marked(PluginConfig(applied), o, managed));
  }

  lemma WrittenIsReported(applied: Record, o: Order)
    ensures var after := SetPluginConfig(applied, Marked(PluginConfig(applied), o, Read(applied)));
            Read(after) == Read(applied) && Status(after) == Some(o.desiredHash)
  {
    OwnSectionIsNotManaged(applied, Marked(PluginConfig(applied), o, Read(applied)));
    MarksAreWritten(applied, o, Read(applied));
  }

  /** A successful application is reported at once, and what it wrote is what was desired. */
  lemma AppliedIsReported(c: Record, o: Order)
    requires CasApply(c, o).Success? && Parsed(o.desired)
    ensures var after := CasApply(c, o).value;
            Read(after) == o.desired && Status(after) == Some(o.desiredHash)
  {
    RoundTripIff(c, o.desired);
    WrittenIsReported(Apply(c, o.desired), o);
  }

  // ---------- Ingress ----------

  predicate BooleanOrAbsent(channel: Record) { Enabled in channel ==> channel[Enabled].Bool? }

  /** The remembered state of a channel. */
  function StateOf(channel: Record): Value {
    if Enabled in channel && channel[Enabled].Bool? then channel[Enabled] else Text("missing")
  }

  function Restored(channel: Record, state: Value): Record {
    if state == Text("missing") then channel - {Enabled}
    else if state.Bool? then channel[Enabled := state] else channel
  }

  function States(channels: Record): Record {
    map k | k in channels && channels[k].Obj? :: StateOf(channels[k].fields)
  }

  function Off(channels: Record): Record {
    map k | k in channels :: if channels[k].Obj? then Obj(channels[k].fields[Enabled := Bool(false)]) else channels[k]
  }

  function On(channels: Record, states: Record): Record {
    map k | k in channels ::
      if channels[k].Obj? && k in states then Obj(Restored(channels[k].fields, states[k])) else channels[k]
  }

  predicate IsDisabled(own: Record) { Get(own, IngressDisabled) == Some(Bool(true)) }

  /** `ensureRecord` of the channels and of the plugin's section */
  function Ensured(c: Record): Record {
    var withChannels := Put(c, Channels, Child(c, Channels));
    SetPluginConfig(withChannels, PluginConfig(withChannels))
  }

  /** `setChannelIngress` */
  function Ingress(c: Record, enabled: bool): Record {
    var own := PluginConfig(c);
    var channels := Child(c, Channels);
    if enabled != IsDisabled(own) then Ensured(c)
    else if enabled then
      SetPluginConfig(Put(c, Channels, On(channels, Child(own, DisabledChannelStates))),
        (own - {DisabledChannelStates})[IngressDisabled := Bool(false)])
    else
      SetPluginConfig(Put(c, Channels, Off(channels)),
        own[DisabledChannelStates := Obj(States(channels))][IngressDisabled := Bool(true)])
  }

  lemma EnsuredKeeps(c: Record)
    ensures Child(Ensured(c), Channels) == Child(c, Channels) && PluginConfig(Ensured(c)) == PluginConfig(c)
    ensures Ensured(Ensured(c)) == Ensured(c)
  {
    PluginConfigIsOwn(c, Child(c, Channels));
    var once := Ensured(c);
    PluginConfigIsOwn(Put(c, Channels, Child(c, Channels)), PluginConfig(c));
    assert Put(once, Channels, Child(once, Channels)) == once;
    EnsureAgain(once);
  }

  lemma EnsureAgain(c: Record)
    requires Plugins in c && c[Plugins].Obj? && Entries in Child(c, Plugins) && Child(c, Plugins)[Entries].Obj?
    requires var entries := Child(Child(c, Plugins), Entries);
             Crabhelm in entries && entries[Crabhelm].Obj? && ConfigKey in Child(entries, Crabhelm) &&
             Child(entries, Crabhelm)[ConfigKey].Obj?
    ensures SetPluginConfig(c, PluginConfig(c)) == c
  {
    var entries := Child(Child(c, Plugins), Entries);
    assert Put(Child(entries, Crabhelm), ConfigKey, PluginConfig(c)) == Child(entries, Crabhelm);
    assert Put(entries, Crabhelm, Child(entries, Crabhelm)) == entries;
    assert Put(Child(c, Plugins), Entries, entries) == Child(c, Plugins);
  }

  /** What an ingress command makes of the two parts it touches. */
  lemma IngressParts(c: Record, enabled: bool)
    ensures var own := PluginConfig(c);
            var channels := Child(c, Channels);
            var after := Ingress(c, enabled);
            && (enabled != IsDisabled(own) ==> PluginConfig(after) == own && Child(after, Channels) == channels)
            && (enabled && IsDisabled(own) ==>
                  && PluginConfig(after) == (own - {DisabledChannelStates})[IngressDisabled := Bool(false)]
                  && Child(after, Channels) == On(channels, Child(own, DisabledChannelStates)))
            && (!enabled && !IsDisabled(own) ==>
                  && PluginConfig(after) == own[DisabledChannelStates := Obj(States(channels))][IngressDisabled := Bool(true)]
                  && Child(after, Channels) == Off(channels))
  {
    EnsuredKeeps(c);
    var own := PluginConfig(c);
    var channels := Child(c, Channels);
    var on := Put(c, Channels, On(channels, Child(own, DisabledChannelStates)));
    PluginConfigIsOwn(on, (own - {DisabledChannelStates})[IngressDisabled := Bool(false)]);
    var off := Put(c, Channels, Off(channels));
    PluginConfigIsOwn(off, own[DisabledChannelStates := Obj(States(channels))][IngressDisabled := Bool(true)]);
  }

  function Repeat(c: Record, enabled: bool, n: nat): Record {
    if n == 0 then c else Ingress(Repeat(c, enabled, n - 1), enabled)
  }

  /** The channel is no object or switched off. */
  predicate IsOff(c: Record, k: Key) { ChannelOff(Child(c, Channels), k) }

  predicate ChannelOff(channels: Record, k: Key) {
    k in channels && channels[k].Obj? ==> Get(channels[k].fields, Enabled) == Some(Bool(false))
  }

  /** After a disable a channel is off exactly if the configuration was not marked disabled or the channel was off. */
  lemma DisabledChannelsAreOff(c: Record, k: Key)
    ensures IsDisabled(PluginConfig(Ingress(c, false)))
    ensures IsOff(Ingress(c, false), k) <==> !IsDisabled(PluginConfig(c)) || IsOff(c, k)
  {
    IngressParts(c, false);
  }

  /** Repeated disables and repeated enables change nothing more. */
  lemma IngressAgain(c: Record, enabled: bool)
    ensures Ingress(Ingress(c, enabled), enabled) == Ingress(c, enabled)
  {
    var after := Ingress(c, enabled);
    IngressParts(c, enabled);
    assert enabled != IsDisabled(PluginConfig(after));
    EnsuredKeeps(c);
    if enabled == IsDisabled(PluginConfig(c)) {
      assert Put(after, Channels, Child(after, Channels)) == after;
      EnsureAgain(after);
    }
  }

  lemma {:induction false} RepeatIsOnce(c: Record, enabled: bool, n: nat)
    requires n > 0
    ensures Repeat(c, enabled, n) == Ingress(c, enabled)
  {
    if n > 1 {
      RepeatIsOnce(c, enabled, n - 1);
      IngressAgain(c, enabled);
    }
  }

  lemma OffThenOn(channels: Record)
    ensures On(Off(channels), States(channels)).Keys == channels.Keys
    ensures forall k :: k in channels ==>
                          (On(Off(channels), States(channels))[k] == channels[k] <==>
                           (channels[k].Obj? ==> BooleanOrAbsent(channels[k].fields)))
  {
    forall k | k in channels && channels[k].Obj?
      ensures Restored(channels[k].fields[Enabled := Bool(false)], StateOf(channels[k].fields)) == channels[k].fields <==>
              BooleanOrAbsent(channels[k].fields)
    {
      var channel := channels[k].fields;
      var back := Restored(channel[Enabled := Bool(false)], StateOf(channel));
      if BooleanOrAbsent(channel) {
        assert back == channel;
      } else {
        assert Enabled !in back;
      }
    }
  }

  /** What a recorded state would write into the channel is there already. */
  predicate Fits(channel: Record, state: Value) {
    && (state == Text("missing") ==> Enabled !in channel)
    && (state.Bool? ==> Get(channel, Enabled) == Some(state))
  }

  predicate AllFit(channels: Record, states: Record) {
    forall k :: k in channels && channels[k].Obj? && k in states ==> Fits(channels[k].fields, states[k])
  }

  predicate AllBooleanOrAbsent(channels: Record) {
    forall k :: k in channels && channels[k].Obj? ==> BooleanOrAbsent(channels[k].fields)
  }

  /**
   Any number of disables followed by any number of enables restores every channel exactly, absent settings included,
   if and only if each channel's `enabled` was boolean or absent; or, where the configuration was marked disabled
   before, if and only if each recorded state is what the channel has.
   */
  lemma IngressUndoesItselfIff(c: Record, n: nat, m: nat)
    requires n > 0 && m > 0
    ensures var own, channels := PluginConfig(c), Child(c, Channels);
            var after := Repeat(Repeat(c, false, n), true, m);
            && (Child(after, Channels) == channels <==>
                if IsDisabled(own) then AllFit(channels, Child(own, DisabledChannelStates))
                else AllBooleanOrAbsent(channels))
            && PluginConfig(after) == (own - {DisabledChannelStates})[IngressDisabled := Bool(false)]
  {
    RepeatIsOnce(c, false, n);
    var off := Ingress(c, false);
    RepeatIsOnce(off, true, m);
    IngressParts(c, false);
    IngressParts(off, true);
    var own, channels := PluginConfig(c), Child(c, Channels);
    ChannelsRestoredIff(channels);
    ChannelsFitIff(channels, Child(own, DisabledChannelStates));
    OwnRestored(own, States(channels));
  }

  lemma ChannelsFitIff(channels: Record, states: Record)
    ensures On(channels, states) == channels <==> AllFit(channels, states)
  {
    forall k | k in channels && channels[k].Obj? && k in states
      ensures Restored(channels[k].fields, states[k]) == channels[k].fields <==> Fits(channels[k].fields, states[k])
    {
      RestoredIff(channels[k].fields, states[k]);
    }
    var back := On(channels, states);
    assert back == channels <==> forall k :: k in channels ==> back[k] == channels[k];
  }

  lemma RestoredIff(channel: Record, state: Value)
    ensures Restored(channel, state) == channel <==> Fits(channel, state)
  {
    if state == Text("missing") {
      assert Enabled !in Restored(channel, state);
      assert Enabled !in channel ==> channel - {Enabled} == channel;
    } else if state.Bool? {
      assert Get(Restored(channel, state), Enabled) == Some(state);
      assert Get(channel, Enabled) == Some(state) ==> channel[Enabled := state] == channel;
    }
  }

  lemma ChannelsRestoredIff(channels: Record)
    ensures On(Off(channels), States(channels)) == channels <==>
            AllBooleanOrAbsent(channels)
  {
    OffThenOn(channels);
    var back := On(Off(channels), States(channels));
    assert back == channels <==> forall k :: k in channels ==> back[k] == channels[k];
  }

  lemma OwnRestored(own: Record, states: Record)
    ensures (own[DisabledChannelStates := Obj(states)][IngressDisabled := Bool(true)] - {DisabledChannelStates})
            [IngressDisabled := Bool(false)] == (own - {DisabledChannelStates})[IngressDisabled := Bool(false)]
  {
  }

  // ---------- Every run ----------

  /** The configuration, and what the last successful application wrote for which desired hash. */
  datatype ChildState = ChildState(config: Record, last: Option<(Managed, string)>)

  datatype Event = ApplyOrder(order: Order) | SwitchIngress(enabled: bool) | EditElsewhere(config: Record)

  /** Others may edit everything but what the commands recorded about applications. */
  predicate SameMarks(c: Record, other: Record) {
    && Get(PluginConfig(c), AppliedManagedHash) == Get(PluginConfig(other), AppliedManagedHash)
    && Get(PluginConfig(c), AppliedDesiredHash) == Get(PluginConfig(other), AppliedDesiredHash)
  }

  function Step(s: ChildState, e: Event): ChildState {
    match e
    case ApplyOrder(o) =>
      var r := CasApply(s.config, o);
      if r.Failure? then s
      else ChildState(r.value, Some((Read(Apply(s.config, o.desired)), o.desiredHash)))
    case SwitchIngress(enabled) => s.(config := Ingress(s.config, enabled))
    case EditElsewhere(config) => if SameMarks(s.config, config) then s.(config := config) else s
  }

  function Run(s: ChildState, events: seq<Event>): ChildState
    decreases |events|
  {
    if events == [] then s else Run(Step(s, events[0]), events[1..])
  }

  ghost predicate MarksOk(s: ChildState) {
    var own := PluginConfig(s.config);
    && Get(own, AppliedManagedHash) == (if s.last.Some? then Some(Hash(s.last.value.0)) else None)
    && (s.last.Some? ==> Get(own, AppliedDesiredHash) == Some(Text(s.last.value.1)))
  }

  lemma StepKeepsMarks(s: ChildState, e: Event)
    requires MarksOk(s)
    ensures MarksOk(Step(s, e))
  {
    match e
    case ApplyOrder(o) =>
      MarksAreWritten(Apply(s.config, o.desired), o, Read(Apply(s.config, o.desired)));
    case SwitchIngress(enabled) => IngressParts(s.config, enabled);
    case EditElsewhere(_) =>
  }

  lemma {:induction false} RunKeepsMarks(s: ChildState, events: seq<Event>)
    requires MarksOk(s)
    ensures MarksOk(Run(s, events))
    decreases |events|
  {
    if events != [] {
      StepKeepsMarks(s, events[0]);
      RunKeepsMarks(Step(s, events[0]), events[1..]);
    }
  }

  /**
   In every run of applications, ingress switches and foreign edits, the child reports an applied desired hash exactly
   while its managed state is what the last successful application wrote, and then it reports that application's hash.
   */
  lemma StatusIsHonest(c: Record, events: seq<Event>, hash: string)
    requires AppliedManagedHash !in PluginConfig(c)
    ensures var s := Run(ChildState(c, None), events);
            Status(s.config) == Some(hash) <==> s.last == Some((Read(s.config), hash))
  {
    RunKeepsMarks(ChildState(c, None), events);
  }

  // ---------- Disabled ingress over every run ----------

  lemma OwnConfigIsKept(plugins: Record, d: Managed)
    ensures Child(Child(PluginsAfter(plugins, d), Entries), Crabhelm) == Child(Child(plugins, Entries), Crabhelm)
  {
  }

  lemma SlackIsSwitched(channels: Record, d: Managed, k: Key)
    ensures ChannelOff(ChannelsAfter(channels, d), k) <==>
            if k == Slack then !d.slackEnabled else ChannelOff(channels, k)
  {
  }

  lemma ApplicationParts(c: Record, d: Managed)
    ensures PluginConfig(Apply(c, d)) == PluginConfig(c)
    ensures Child(Apply(c, d), Channels) == ChannelsAfter(Child(c, Channels), d)
  {
    EditedSections(c, EditsOf(d));
    OwnConfigIsKept(Child(c, Plugins), d);
  }

  lemma MarksKeepIngress(c: Record, own: Record, o: Order, managed: Managed)
    requires own == PluginConfig(c)
    ensures var after := SetPluginConfig(c, Marked(own, o, managed));
            && IsDisabled(PluginConfig(after)) == IsDisabled(own) && Child(after, Channels) == Child(c, Channels)
  {
    PluginConfigIsOwn(c, Marked(own, o, managed));
  }

  /** An application does not touch the ingress mark, and of the channels only whether Slack is on. */
  lemma ApplicationAndIngress(c: Record, o: Order, k: Key)
    requires CasApply(c, o).Success?
    ensures var after := CasApply(c, o).value;
            && IsDisabled(PluginConfig(after)) == IsDisabled(PluginConfig(c))
            && (IsOff(after, k) <==> if k == Slack then !o.desired.slackEnabled else IsOff(c, k))
  {
    var applied := Apply(c, o.desired);
    ApplicationParts(c, o.desired);
    MarksKeepIngress(applied, PluginConfig(applied), o, Read(applied));
    SlackIsSwitched(Child(c, Channels), o.desired, k);
  }

  /** Whether an event, by what it says itself, leaves the channel off; none if it does not speak of the channel. */
  function Says(s: ChildState, e: Event, k: Key): Option<bool> {
    match e
    case SwitchIngress(enabled) => if enabled || IsDisabled(PluginConfig(s.config)) then None else Some(true)
    case ApplyOrder(o) =>
      if k == Slack && CasApply(s.config, o).Success? then Some(!o.desired.slackEnabled) else None
    case EditElsewhere(config) => if SameMarks(s.config, config) then Some(IsOff(config, k)) else None
  }

  function Heard(said: Option<bool>, sofar: bool): bool { if said.Some? then said.value else sofar }

  /** The last thing a run says of the channel. */
  function LastWord(s: ChildState, events: seq<Event>, k: Key, sofar: bool): bool
    decreases |events|
  {
    if events == [] then sofar
    else LastWord(Step(s, events[0]), events[1..], k, Heard(Says(s, events[0], k), sofar))
  }

  predicate Tells(s: ChildState, k: Key, word: bool) { IsDisabled(PluginConfig(s.config)) ==> (IsOff(s.config, k) <==> word) }

  lemma SwitchTells(s: ChildState, enabled: bool, k: Key, word: bool)
    requires Tells(s, k, word)
    ensures Tells(Step(s, SwitchIngress(enabled)), k, Heard(Says(s, SwitchIngress(enabled), k), word))
  {
    IngressParts(s.config, enabled);
    if !enabled {
      DisabledChannelsAreOff(s.config, k);
    }
  }

  lemma OrderTells(s: ChildState, o: Order, k: Key, word: bool)
    requires Tells(s, k, word)
    ensures Tells(Step(s, ApplyOrder(o)), k, Heard(Says(s, ApplyOrder(o), k), word))
  {
    if CasApply(s.config, o).Success? {
      ApplicationAndIngress(s.config, o, k);
    }
  }

  lemma StepTells(s: ChildState, e: Event, k: Key, word: bool)
    requires Tells(s, k, word)
    ensures Tells(Step(s, e), k, Heard(Says(s, e, k), word))
  {
    match e
    case SwitchIngress(enabled) => SwitchTells(s, enabled, k, word);
    case ApplyOrder(o) => OrderTells(s, o, k, word);
    case EditElsewhere(_) =>
  }

  lemma {:induction false} RunTells(s: ChildState, events: seq<Event>, k: Key, word: bool)
    requires Tells(s, k, word)
    ensures Tells(Run(s, events), k, LastWord(s, events, k, word))
    decreases |events|
  {
    if events != [] {
      StepTells(s, events[0], k, word);
      RunTells(Step(s, events[0]), events[1..], k, Heard(Says(s, events[0], k), word));
    }
  }

  /**
   Whatever a run starts from and does: while the configuration is marked disabled, a channel is off exactly if the
   last disable that took effect, application or foreign edit that speaks of it left it off, or none did and it was
   off at the start.
   */
  lemma DisabledRunIsOffIff(s: ChildState, events: seq<Event>, k: Key)
    requires IsDisabled(PluginConfig(Run(s, events).config))
    ensures IsOff(Run(s, events).config, k) <==> LastWord(s, events, k, IsOff(s.config, k))
  {
    RunTells(s, events, k, IsOff(s.config, k));
  }

  /** So since a disable that took effect, the channel is off exactly if the last event that spoke of it left it off. */
  lemma OffSinceDisableIff(s: ChildState, events: seq<Event>, k: Key)
    requires !IsDisabled(PluginConfig(s.config))
    requires IsDisabled(PluginConfig(Run(Step(s, SwitchIngress(false)), events).config))
    ensures var disabled := Step(s, SwitchIngress(false));
            IsOff(Run(disabled, events).config, k) <==> LastWord(disabled, events, k, true)
  {
    DisabledChannelsAreOff(s.config, k);
    DisabledRunIsOffIff(Step(s, SwitchIngress(false)), events, k);
  }

  /** No event of the run switches the channel on: neither an application of this Slack setting nor a foreign edit. */
  predicate NeverTurnedOn(s: ChildState, events: seq<Event>, k: Key)
    decreases |events|
  {
    events == [] ||
    (Says(s, events[0], k) != Some(false) && NeverTurnedOn(Step(s, events[0]), events[1..], k))
  }

  lemma {:induction false} NeverOnMeansOff(s: ChildState, events: seq<Event>, k: Key)
    requires NeverTurnedOn(s, events, k)
    ensures LastWord(s, events, k, true)
    decreases |events|
  {
    if events != [] {
      NeverOnMeansOff(Step(s, events[0]), events[1..], k);
    }
  }

  /** After a disable that took effect, with nothing turning a channel on since, it is off while the mark is there. */
  lemma DisabledStaysOff(s: ChildState, events: seq<Event>, k: Key)
    requires !IsDisabled(PluginConfig(s.config))
    requires var disabled := Step(s, SwitchIngress(false));
             NeverTurnedOn(disabled, events, k) && IsDisabled(PluginConfig(Run(disabled, events).config))
    ensures IsOff(Run(Step(s, SwitchIngress(false)), events).config, k)
  {
    var disabled := Step(s, SwitchIngress(false));
    NeverOnMeansOff(disabled, events, k);
    OffSinceDisableIff(s, events, k);
  }

  lemma RunOfThree(s: ChildState, a: Event, b: Event, c: Event)
    ensures Run(s, [a, b, c]) == Step(Step(Step(s, a), b), c)
  {
    assert [a, b, c][1..] == [b, c] && [b, c][1..] == [c] && [c][1..] == [];
    assert Run(Step(s, a), [b, c]) == Run(Step(Step(s, a), b), [c]);
  }

  /** The configuration is marked disabled, and the channel is on all the same. */
  predicate OnUnderMark(s: ChildState, k: Key) { IsDisabled(PluginConfig(s.config)) && !IsOff(s.config, k) }

  lemma IgnoredDisable(s: ChildState, k: Key)
    requires OnUnderMark(s, k)
    ensures OnUnderMark(Step(s, SwitchIngress(false)), k)
  {
    DisabledChannelsAreOff(s.config, k);
  }

  lemma OrderTurnsOn(s: ChildState, o: Order)
    requires IsDisabled(PluginConfig(s.config)) && o.desired.slackEnabled && CasApply(s.config, o).Success?
    ensures OnUnderMark(Step(s, ApplyOrder(o)), Slack)
  {
    TurnedOn(s.config, Step(s, ApplyOrder(o)).config, o);
  }

  lemma TurnedOn(c: Record, after: Record, o: Order)
    requires IsDisabled(PluginConfig(c)) && o.desired.slackEnabled && CasApply(c, o) == Success(after)
    ensures IsDisabled(PluginConfig(after)) && !IsOff(after, Slack)
  {
    ApplicationAndIngress(c, o, Slack);
  }

  /** A second disable takes no effect: Slack, switched on by an application in between, stays on under the mark. */
  lemma SecondDisableIsIgnored(c: Record, o: Order)
    requires !IsDisabled(PluginConfig(c)) && o.desired.slackEnabled && CasApply(Ingress(c, false), o).Success?
    ensures OnUnderMark(Run(ChildState(c, None), [SwitchIngress(false), ApplyOrder(o), SwitchIngress(false)]), Slack)
  {
    var start := ChildState(c, None);
    RunOfThree(start, SwitchIngress(false), ApplyOrder(o), SwitchIngress(false));
    DisabledChannelsAreOff(c, Slack);
    var off := Step(start, SwitchIngress(false));
    OrderTurnsOn(off, o);
    IgnoredDisable(Step(off, ApplyOrder(o)), Slack);
  }

  /** The same with a foreign edit that switches some channel on and leaves the marks. */
  lemma EditedChannelStaysOn(c: Record, edited: Record, k: Key)
    requires SameMarks(Ingress(c, false), edited) && IsDisabled(PluginConfig(edited)) && !IsOff(edited, k)
    ensures OnUnderMark(Run(ChildState(c, None), [SwitchIngress(false), EditElsewhere(edited), SwitchIngress(false)]), k)
  {
    var start := ChildState(c, None);
    RunOfThree(start, SwitchIngress(false), EditElsewhere(edited), SwitchIngress(false));
    EditTurnsOn(Step(start, SwitchIngress(false)), edited, k);
    IgnoredDisable(Step(Step(start, SwitchIngress(false)), EditElsewhere(edited)), k);
  }

  lemma EditTurnsOn(s: ChildState, edited: Record, k: Key)
    requires SameMarks(s.config, edited) && IsDisabled(PluginConfig(edited)) && !IsOff(edited, k)
    ensures OnUnderMark(Step(s, EditElsewhere(edited)), k)
  {
  }
}
