/**
 The child's configuration edited in place (src/node-control.ts:998-1142): the loops and assignments of the commands,
 proved against ManagedConfig.Apply and ChildConfig.Ingress.  Nested records are values here.
 */
module ChildHost {
  import opened Common
  import opened ManagedConfig
  import opened ChildConfig

  /** `existingAllow.filter(...)`: drops managed ids and repetitions. */
  method FilterAllow(ids: seq<string>) returns (kept: seq<string>)
    ensures kept == Unmanaged(ids)
  {
    kept := [];
    for i := 0 to |ids|
      invariant kept == Unmanaged(ids[..i])
    {
      assert ids[..i + 1][..i] == ids[..i];
      if ids[i] !in MANAGED_IDS && ids[i] !in kept {
        kept := kept + [ids[i]];
      }
    }
    assert ids[..|ids|] == ids;
  }

  /** Deletes the attribution headers, in whatever order the keys come. */
  method DropAttribution(headers: Record) returns (kept: Record)
    ensures kept == CleanHeaders(headers)
  {
    kept := headers;
    var todo := headers.Keys;
    while todo != {}
      invariant todo <= headers.Keys
      invariant kept == map k | k in headers && (k in todo || (!IsDynamic(k) && !IsProject(k))) :: headers[k]
      decreases todo
    {
      var k :| k in todo;
      todo := todo - {k};
      if IsDynamic(k) || IsProject(k) {
        kept := kept - {k};
      }
    }
  }

  /** The provider section. */
  method RouteModels(models: Record, d: Managed) returns (after: Record)
    ensures after == ModelsAfter(models, d)
  {
    var providers := Child(models, Providers);
    var router := d.router;
    if router.Some? {
      var provider := Child(providers, ClawRouterKey);
      provider := provider[BaseUrl := Text(router.value.baseUrl)];
      provider := provider[ApiKey := Obj(ROUTER_API_KEY)];
      var headers := DropAttribution(Child(provider, Headers));
      headers := headers[Name(PROJECT) := Text(router.value.projectId)];
      provider := provider[Headers := Obj(headers)];
      assert provider == RouterAfter(Child(providers, ClawRouterKey), router.value);
      providers := Put(providers, ClawRouterKey, provider);
    } else {
      providers := providers - {ClawRouterKey};
    }
    if OpenAi in providers {
      var openai := Child(providers, OpenAi) - {BaseUrl};
      providers := if openai == map[] then providers - {OpenAi} else Put(providers, OpenAi, openai);
    }
    after := Put(models, Providers, providers);
  }

  class ChildPlugin {
    var config: Record

    constructor (config: Record)
      ensures this.config == config
    {
      this.config := config;
    }

    /** Writes the edited sections one after the other. */
    method WriteSections(
      agents: Record, channels: Record, logging: Record, plugins: Record, models: Record, diagnostics: Record, ghost e: Edits)
      requires agents == e.agents(Child(config, Agents)) && channels == e.channels(Child(config, Channels))
      requires logging == e.logging(Child(config, Logging)) && plugins == e.plugins(Child(config, Plugins))
      requires models == e.models(Child(config, Models)) && diagnostics == e.diagnostics(Child(config, Diagnostics))
      modifies this
      ensures config == EditSections(old(config), e)
    {
      config := Put(config, Agents, agents);
      config := Put(config, Channels, channels);
      config := Put(config, Logging, logging);
      config := Put(config, Plugins, plugins);
      config := Put(config, Models, models);
      config := Put(config, Diagnostics, diagnostics);
    }

    /** `applyManagedDesired` */
    method ApplyManagedDesired(d: Managed)
      modifies this
      ensures config == Apply(old(config), d)
    {
      var plugins := EditPlugins(Child(config, Plugins), d);
      var models := RouteModels(Child(config, Models), d);
      WriteSections(
        AgentsAfter(Child(config, Agents), d), ChannelsAfter(Child(config, Channels), d),
        Child(config, Logging)[Level := Text(LevelText(d.logLevel))], plugins, models,
        DiagnosticsAfter(Child(config, Diagnostics), d), EditsOf(d));
    }

    method EditPlugins(plugins: Record, d: Managed) returns (after: Record)
      ensures after == PluginsAfter(plugins, d)
    {
      var kept := FilterAllow(TextList(Get(plugins, Allow)));
      after := plugins[Allow := Arr(Texts(kept + ManagedIds(d)))];
      var entries := SetEntry(Child(after, Entries), ClawRouterKey, d.router.Some?);
      entries := SetEntry(entries, DiagnosticsOtel, d.otel.enabled);
      after := Put(after, Entries, entries);
    }

    /** The child apply command: nothing changes when the managed state is not the expected one. */
    method ApplyCommand(o: Order) returns (r: Result<Managed, string>)
      modifies this
      ensures r.Success? <==> CasApply(old(config), o).Success?
      ensures r.Success? ==> config == CasApply(old(config), o).value && r.value == Read(Apply(old(config), o.desired))
      ensures r.Failure? ==> config == old(config)
    {
      if Read(config) != o.expected {
        return Failure("CHILD_POLICY_CAS_CONFLICT");
      }
      ApplyManagedDesired(o.desired);
      var managed := Read(config);
      config := SetPluginConfig(config, Marked(PluginConfig(config), o, managed));
      r := Success(managed);
    }

    /** `setChannelIngress` */
    method SetChannelIngress(enabled: bool)
      modifies this
      ensures config == Ingress(old(config), enabled)
    {
      var channels := Child(config, Channels);
      var own := PluginConfig(config);
      if !enabled {
        if IsDisabled(own) {
          config := Ensured(config);
          return;
        }
        var states;
        channels, states := SwitchOff(channels);
        own := own[DisabledChannelStates := Obj(states)][IngressDisabled := Bool(true)];
      } else {
        if !IsDisabled(own) {
          config := Ensured(config);
          return;
        }
        channels := SwitchOn(channels, Child(own, DisabledChannelStates));
        own := (own - {DisabledChannelStates})[IngressDisabled := Bool(false)];
      }
      config := SetPluginConfig(Put(config, Channels, channels), own);
    }

    method SwitchOff(channels: Record) returns (off: Record, states: Record)
      ensures off == Off(channels) && states == States(channels)
    {
      off, states := channels, map[];
      var todo := channels.Keys;
      while todo != {}
        invariant todo <= channels.Keys && off.Keys == channels.Keys
        invariant forall k :: k in channels ==> off[k] == if k in todo then channels[k] else Off(channels)[k]
        invariant states == map k | k in channels && k !in todo && channels[k].Obj? :: StateOf(channels[k].fields)
        decreases todo
      {
        var k :| k in todo;
        todo := todo - {k};
        if channels[k].Obj? {
          states := states[k := StateOf(channels[k].fields)];
          off := off[k := Obj(channels[k].fields[Enabled := Bool(false)])];
        }
      }
    }

    method SwitchOn(channels: Record, states: Record) returns (on: Record)
      ensures on == On(channels, states)
    {
      on := channels;
      var todo := states.Keys;
      while todo != {}
        invariant todo <= states.Keys && on.Keys == channels.Keys
        invariant forall k :: k in channels ==> on[k] == if k in todo then channels[k] else On(channels, states)[k]
        decreases todo
      {
        var k :| k in todo;
        todo := todo - {k};
        if k in channels && channels[k].Obj? {
          on := on[k := Obj(Restored(channels[k].fields, states[k]))];
        }
      }
    }
  }
}
