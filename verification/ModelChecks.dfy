/** Consistency checks on a module's description (pkg/app/api/models/init.go). Equal lengths and
    membership one way are all that is compared; sets are equal by counting. */
module ModelChecks {
  import opened Basics

  /** Types of the schema's properties by name, the required ones, and whether it is a schema. */
  datatype Schema = Schema(valid: bool, properties: map<string, string>, required: seq<string>)

  datatype ActionItem = ActionItem(fields: seq<string>, config: set<string>)

  datatype EventAction = EventAction(moduleName: string, fields: seq<string>)

  datatype EventItem = EventItem(kind: string, fields: seq<string>, actions: seq<EventAction>,
                                 seqNames: seq<string>, groupBy: seq<string>, config: set<string>)

  datatype Dependency = Dependency(moduleName: string, kind: string)

  datatype Info = Info(name: string, tags: seq<string>, fields: seq<string>, actions: seq<string>, events: seq<string>)

  /** What is translated, by id; option names for each action and event. */
  datatype Locale = Locale(tags: set<string>, fields: set<string>, actions: set<string>, events: set<string>,
                           actionConfig: map<string, set<string>>, eventConfig: map<string, set<string>>)

  type ActionConfig = map<string, ActionItem>
  type EventConfig = map<string, EventItem>

  /** `actionsFit` and `eventsFit` are the verdicts of the JSON schema library on the default and
      the current configurations. */
  datatype ModuleA = ModuleA(info: Info, locale: Locale, fieldsSchema: Schema,
                             actionSchema: set<string>, eventSchema: set<string>,
                             defActions: ActionConfig, curActions: ActionConfig,
                             defEvents: EventConfig, curEvents: EventConfig,
                             dependencies: seq<Dependency>, actionsFit: bool, eventsFit: bool)

  type Reports = seq<string>

  // ---- Counting ----

  lemma SubsetOfSameSize(a: set<string>, b: set<string>)
    requires a <= b && |a| == |b|
    ensures a == b
  {
    assert |b - a| == 0 by { assert b == a + (b - a); }
  }

  /** A list without duplicates, as long as a set and within it, lists the set. */
  lemma ListFillsSet(list: seq<string>, keys: set<string>)
    requires NoDuplicates(list) && |list| == |keys| && forall x :: x in list ==> x in keys
    ensures SetOf(list) == keys
  {
    SetOfSize(list);
    SubsetOfSameSize(SetOf(list), keys);
  }

  lemma SetFillsList(list: seq<string>, keys: set<string>)
    requires NoDuplicates(list) && |list| == |keys| && forall x :: x in keys ==> x in list
    ensures SetOf(list) == keys
  {
    SetOfSize(list);
    SubsetOfSameSize(keys, SetOf(list));
  }

  // ---- Files and tags ----

  /** A list that names a value twice names fewer values than it is long. */
  lemma DuplicateMeansSmaller(list: seq<string>)
    requires !NoDuplicates(list)
    ensures |SetOf(list)| < |list|
  {
    var i, j :| 0 <= i < j < |list| && list[i] == list[j];
    var rest := RemoveAt(list, j);
    assert SetOf(rest) == SetOf(list) by {
      forall x | x in list ensures x in rest {
        var k :| 0 <= k < |list| && list[k] == x;
        assert rest[if k == j then i else if k < j then k else k - 1] == x;
      }
      forall x | x in rest ensures x in list {
        var k :| 0 <= k < |rest| && rest[k] == x;
        assert x == list[if k < j then k else k + 1];
      }
    }
    SetOfSize(rest);
  }

  /** A list that passes against a set is that set if and only if it has no duplicates. */
  lemma PassingListIsSetIff(list: seq<string>, keys: set<string>)
    requires |list| == |keys| && forall x :: x in list ==> x in keys
    ensures SetOf(list) == keys <==> NoDuplicates(list)
  {
    if NoDuplicates(list) {
      ListFillsSet(list, keys);
    } else {
      DuplicateMeansSmaller(list);
    }
  }

  /** The `unique` tag of the validation library: the elements are put into a map as keys. */
  method UniqueReports(list: seq<string>) returns (reports: Reports)
    ensures reports == [] <==> NoDuplicates(list)
  {
    var keys: set<string> := {};
    var i := 0;
    while i < |list|
      invariant 0 <= i <= |list| && keys == SetOf(list[..i])
    {
      TakeNext(list, i);
      keys := keys + {list[i]};
      i := i + 1;
    }
    assert list[..i] == list;
    SetOfSize(list);
    if !NoDuplicates(list) {
      DuplicateMeansSmaller(list);
    }
    reports := if |keys| == |list| then [] else ["unique"];
  }

  method BinaryInfoReports(files: seq<string>, chksums: set<string>) returns (reports: Reports)
    ensures reports == [] <==>
              NoDuplicates(files) && |files| == |chksums| && forall path :: path in files ==> path in chksums
  {
    reports := UniqueReports(files);
    if |files| != |chksums| {
      return reports + ["must_eq_len_chksums_value", "must_eq_len_files_value"];
    }
    var i := 0;
    while i < |files|
      invariant 0 <= i <= |files|
      invariant reports == [] <==> NoDuplicates(files) && forall k :: 0 <= k < i ==> files[k] in chksums
    {
      if files[i] !in chksums {
        reports := reports + ["must_val_in_chksums_value"];
      }
      i := i + 1;
    }
  }

  method TagReports(mod: ModuleA) returns (reports: Reports)
    ensures reports == [] <==> |mod.info.tags| == |mod.locale.tags|
                               && forall t :: t in mod.info.tags ==> t in mod.locale.tags
  {
    reports := [];
    if |mod.info.tags| != |mod.locale.tags| {
      return ["must_eq_len_locale_tags", "must_eq_len_locale_tags"];
    }
    var i := 0;
    while i < |mod.info.tags|
      invariant 0 <= i <= |mod.info.tags|
      invariant reports == [] <==> forall k :: 0 <= k < i ==> mod.info.tags[k] in mod.locale.tags
    {
      if mod.info.tags[i] !in mod.locale.tags {
        reports := reports + ["must_val_in_locale_tags"];
      }
      i := i + 1;
    }
  }

  // ---- Fields ----

  function ActionFields(ids: seq<string>, config: ActionConfig): set<string> {
    set id, f | id in ids && id in config && f in config[id].fields :: f
  }

  function EventFields(ids: seq<string>, config: EventConfig): set<string> {
    set id, f | id in ids && id in config && f in config[id].fields :: f
  }

  /** Required fields and those used by a listed action or event, default or current. */
  function UsedFields(mod: ModuleA): set<string> {
    SetOf(mod.fieldsSchema.required)
    + ActionFields(mod.info.actions, mod.defActions) + ActionFields(mod.info.actions, mod.curActions)
    + EventFields(mod.info.events, mod.defEvents) + EventFields(mod.info.events, mod.curEvents)
  }

  ghost predicate HasRequired(mod: ModuleA, fields: seq<string>) {
    forall f :: f in mod.fieldsSchema.required ==> f in fields
  }

  ghost predicate ActionsHaveRequired(mod: ModuleA, config: ActionConfig) {
    forall id :: id in mod.info.actions && id in config ==> HasRequired(mod, config[id].fields)
  }

  ghost predicate EventsHaveRequired(mod: ModuleA, config: EventConfig) {
    forall id :: id in mod.info.events && id in config && config[id].kind == "atomic" ==>
      HasRequired(mod, config[id].fields)
  }

  /** What the check compares, taken literally. */
  ghost predicate FieldsChecked(mod: ModuleA) {
    var props := mod.fieldsSchema.properties;
    && mod.fieldsSchema.valid
    && |mod.info.fields| == |props| == |mod.locale.fields| == |UsedFields(mod)|
    && (forall f :: f in props ==>
          f in mod.locale.fields && f in mod.info.fields && f in UsedFields(mod) && f != "info")
    && ActionsHaveRequired(mod, mod.defActions) && ActionsHaveRequired(mod, mod.curActions)
    && EventsHaveRequired(mod, mod.defEvents) && EventsHaveRequired(mod, mod.curEvents)
  }

  /** The check together with the demand that no id is listed twice. */
  ghost predicate FieldsPass(mod: ModuleA) {
    FieldsChecked(mod) && NoDuplicates(mod.info.fields)
  }

  /** The sets of field names a passing module has all agree. */
  lemma FieldSetsAgree(mod: ModuleA)
    requires FieldsPass(mod)
    ensures SetOf(mod.info.fields) == mod.fieldsSchema.properties.Keys == mod.locale.fields == UsedFields(mod)
  {
    var keys := mod.fieldsSchema.properties.Keys;
    assert |keys| == |mod.fieldsSchema.properties|;
    SetFillsList(mod.info.fields, keys);
    SubsetOfSameSize(keys, mod.locale.fields);
    SubsetOfSameSize(keys, UsedFields(mod));
  }

  method RequiredReports(mod: ModuleA, fields: seq<string>) returns (reports: Reports)
    ensures reports == [] <==> HasRequired(mod, fields)
  {
    reports := [];
    var i := 0;
    while i < |mod.fieldsSchema.required|
      invariant 0 <= i <= |mod.fieldsSchema.required|
      invariant reports == [] <==> forall k :: 0 <= k < i ==> mod.fieldsSchema.required[k] in fields
    {
      if mod.fieldsSchema.required[i] !in fields {
        reports := reports + ["must_val_for_required_fields"];
      }
      i := i + 1;
    }
  }

  /** The first part of the check: lengths, and names of the schema in the other two lists. */
  method SchemaReports(mod: ModuleA) returns (reports: Reports)
    ensures reports == [] <==>
            && mod.fieldsSchema.valid
            && |mod.info.fields| == |mod.fieldsSchema.properties| == |mod.locale.fields|
            && forall f :: f in mod.fieldsSchema.properties ==> f in mod.locale.fields && f in mod.info.fields
  {
    reports := [];
    if !mod.fieldsSchema.valid {
      return ["must_valid_fields_schema"];
    } else if |mod.info.fields| != |mod.fieldsSchema.properties| {
      return ["must_eq_len_locale_action", "must_eq_len_locale_action"];
    } else if |mod.info.fields| != |mod.locale.fields| {
      return ["must_eq_len_locale_action", "must_eq_len_locale_action"];
    }
    var rest := mod.fieldsSchema.properties.Keys;
    while rest != {}
      invariant rest <= mod.fieldsSchema.properties.Keys
      invariant reports == [] <==>
                forall f :: f in mod.fieldsSchema.properties && f !in rest ==>
                  f in mod.locale.fields && f in mod.info.fields
      decreases |rest|
    {
      var f :| f in rest;
      if f !in mod.locale.fields {
        reports := reports + ["must_val_in_locale_fields"];
      }
      if f !in mod.info.fields {
        reports := reports + ["must_val_in_module_info_fields"];
      }
      rest := rest - {f};
    }
  }

  /** The loop over the listed actions: fields used, and required fields missed. */
  method ActionFieldReports(mod: ModuleA, config: ActionConfig) returns (fields: set<string>, reports: Reports)
    ensures fields == ActionFields(mod.info.actions, config)
    ensures reports == [] <==> ActionsHaveRequired(mod, config)
  {
    fields, reports := {}, [];
    var i := 0;
    while i < |mod.info.actions|
      invariant 0 <= i <= |mod.info.actions|
      invariant fields == ActionFields(mod.info.actions[..i], config)
      invariant reports == [] <==> forall k :: 0 <= k < i && mod.info.actions[k] in config ==>
                                     HasRequired(mod, config[mod.info.actions[k]].fields)
    {
      var aid := mod.info.actions[i];
      TakeNext(mod.info.actions, i);
      if aid in config {
        fields := fields + SetOf(config[aid].fields);
        var more := RequiredReports(mod, config[aid].fields);
        reports := reports + more;
      }
      assert ActionFields(mod.info.actions[..i] + [aid], config) ==
             ActionFields(mod.info.actions[..i], config) + (if aid in config then SetOf(config[aid].fields) else {});
      i := i + 1;
    }
    assert mod.info.actions[..i] == mod.info.actions;
  }

  method EventFieldReports(mod: ModuleA, config: EventConfig) returns (fields: set<string>, reports: Reports)
    ensures fields == EventFields(mod.info.events, config)
    ensures reports == [] <==> EventsHaveRequired(mod, config)
  {
    fields, reports := {}, [];
    var i := 0;
    while i < |mod.info.events|
      invariant 0 <= i <= |mod.info.events|
      invariant fields == EventFields(mod.info.events[..i], config)
      invariant reports == [] <==> forall k :: 0 <= k < i && mod.info.events[k] in config
                                               && config[mod.info.events[k]].kind == "atomic" ==>
                                     HasRequired(mod, config[mod.info.events[k]].fields)
    {
      var eid := mod.info.events[i];
      TakeNext(mod.info.events, i);
      if eid in config {
        fields := fields + SetOf(config[eid].fields);
        if config[eid].kind == "atomic" {
          var more := RequiredReports(mod, config[eid].fields);
          reports := reports + more;
        }
      }
      assert EventFields(mod.info.events[..i] + [eid], config) ==
             EventFields(mod.info.events[..i], config) + (if eid in config then SetOf(config[eid].fields) else {});
      i := i + 1;
    }
    assert mod.info.events[..i] == mod.info.events;
  }

  method UsedFieldReports(mod: ModuleA, fields: set<string>) returns (reports: Reports)
    ensures reports == [] <==>
            |mod.fieldsSchema.properties| == |fields|
            && forall f :: f in mod.fieldsSchema.properties ==> f in fields && f != "info"
  {
    reports := [];
    if |mod.fieldsSchema.properties| > |fields| {
      return ["must_using_all_fields_in_actions_and_events"];
    } else if |mod.fieldsSchema.properties| < |fields| {
      return ["must_contains_all_fields_for_actions_and_events"];
    }
    var rest := mod.fieldsSchema.properties.Keys;
    while rest != {}
      invariant rest <= mod.fieldsSchema.properties.Keys
      invariant reports == [] <==>
                forall f :: f in mod.fieldsSchema.properties && f !in rest ==> f in fields && f != "info"
      decreases |rest|
    {
      var f :| f in rest;
      if f !in fields {
        reports := reports + ["must_val_in_actions_or_events_fields"];
      }
      if f == "info" {
        reports := reports + ["must_val_not_in_blacklist_fields"];
      }
      rest := rest - {f};
    }
  }

  method FieldReports(mod: ModuleA) returns (reports: Reports)
    ensures reports == [] <==> FieldsChecked(mod)
  {
    reports := SchemaReports(mod);
    var fields := SetOf(mod.fieldsSchema.required);
    var used, more := ActionFieldReports(mod, mod.defActions);
    fields, reports := fields + used, reports + more;
    used, more := ActionFieldReports(mod, mod.curActions);
    fields, reports := fields + used, reports + more;
    used, more := EventFieldReports(mod, mod.defEvents);
    fields, reports := fields + used, reports + more;
    used, more := EventFieldReports(mod, mod.curEvents);
    fields, reports := fields + used, reports + more;
    assert fields == UsedFields(mod);
    more := UsedFieldReports(mod, fields);
    reports := reports + more;
  }

  // ---- Actions ----

  function OptionNames(locale: map<string, set<string>>, id: string): set<string> {
    if id in locale then locale[id] else {}
  }

  ghost predicate ActionItemPass(mod: ModuleA, config: ActionConfig, aid: string) {
    && aid in config && aid in mod.actionSchema && aid in mod.locale.actionConfig
    && |config[aid].config| == |mod.locale.actionConfig[aid]|
    && (forall c :: c in config[aid].config ==> c in mod.locale.actionConfig[aid])
    && (forall f :: f in config[aid].fields ==> f in mod.fieldsSchema.properties)
  }

  ghost predicate ActionsChecked(mod: ModuleA) {
    && |mod.info.actions| == |mod.locale.actions| == |mod.defActions| == |mod.curActions| == |mod.actionSchema|
    && (forall aid :: aid in mod.info.actions ==>
          aid in mod.locale.actions
          && ActionItemPass(mod, mod.defActions, aid) && ActionItemPass(mod, mod.curActions, aid))
    && mod.actionsFit
  }

  ghost predicate ActionsUnique(config: ActionConfig) {
    forall aid :: aid in config ==> NoDuplicates(config[aid].fields)
  }

  ghost predicate ActionsPass(mod: ModuleA) {
    && ActionsChecked(mod) && NoDuplicates(mod.info.actions)
    && ActionsUnique(mod.defActions) && ActionsUnique(mod.curActions)
  }

  /** The sets of action ids a passing module has all agree, and each action's options are exactly
      those that are translated. */
  lemma ActionSetsAgree(mod: ModuleA)
    requires ActionsPass(mod)
    ensures SetOf(mod.info.actions) == mod.locale.actions == mod.actionSchema
    ensures mod.locale.actions == mod.defActions.Keys == mod.curActions.Keys
    ensures forall aid :: aid in mod.defActions && aid in mod.curActions ==>
              mod.defActions[aid].config == mod.curActions[aid].config == OptionNames(mod.locale.actionConfig, aid)
  {
    var ids := mod.info.actions;
    assert |mod.defActions.Keys| == |mod.defActions| && |mod.curActions.Keys| == |mod.curActions|;
    forall aid | aid in ids ensures aid in mod.defActions && aid in mod.curActions && aid in mod.actionSchema {
      assert ActionItemPass(mod, mod.defActions, aid) && ActionItemPass(mod, mod.curActions, aid);
    }
    ListFillsSet(ids, mod.locale.actions);
    ListFillsSet(ids, mod.defActions.Keys);
    ListFillsSet(ids, mod.curActions.Keys);
    ListFillsSet(ids, mod.actionSchema);
    forall aid | aid in mod.defActions && aid in mod.curActions
      ensures mod.defActions[aid].config == mod.curActions[aid].config == OptionNames(mod.locale.actionConfig, aid)
    {
      assert aid in SetOf(ids) && ActionItemPass(mod, mod.defActions, aid) && ActionItemPass(mod, mod.curActions, aid);
      SubsetOfSameSize(mod.defActions[aid].config, mod.locale.actionConfig[aid]);
      SubsetOfSameSize(mod.curActions[aid].config, mod.locale.actionConfig[aid]);
    }
  }

  method OptionReports(options: set<string>, names: set<string>) returns (reports: Reports)
    ensures reports == [] <==> |options| == |names| && forall c :: c in options ==> c in names
  {
    reports := [];
    if |options| != |names| {
      return ["must_eq_len_locale_config"];
    }
    var rest := options;
    while rest != {}
      invariant rest <= options
      invariant reports == [] <==> forall c :: c in options && c !in rest ==> c in names
      decreases |rest|
    {
      var c :| c in rest;
      if c !in names {
        reports := reports + ["must_opt_val_in_locale_config"];
      }
      rest := rest - {c};
    }
  }

  method KnownFieldReports(fields: seq<string>, known: set<string>) returns (reports: Reports)
    ensures reports == [] <==> forall f :: f in fields ==> f in known
  {
    reports := [];
    var i := 0;
    while i < |fields|
      invariant 0 <= i <= |fields|
      invariant reports == [] <==> forall k :: 0 <= k < i ==> fields[k] in known
    {
      if fields[i] !in known {
        reports := reports + ["must_config_fields_in_fields_schema"];
      }
      i := i + 1;
    }
  }

  method ActionItemReports(mod: ModuleA, config: ActionConfig, aid: string) returns (reports: Reports)
    ensures reports == [] <==> ActionItemPass(mod, config, aid)
  {
    reports := [];
    if aid !in config {
      return ["must_val_in_action_config"];
    }
    var act := config[aid];
    if aid !in mod.actionSchema {
      reports := reports + ["must_val_in_action_config_schema"];
    }
    if aid !in mod.locale.actionConfig {
      reports := reports + ["must_val_in_locale_action_config"];
    } else {
      var more := OptionReports(act.config, mod.locale.actionConfig[aid]);
      reports := reports + more;
    }
    var more := KnownFieldReports(act.fields, mod.fieldsSchema.properties.Keys);
    reports := reports + more;
  }

  method ActionReports(mod: ModuleA) returns (reports: Reports)
    ensures reports == [] <==> ActionsChecked(mod)
  {
    reports := [];
    if |mod.info.actions| != |mod.locale.actions| {
      return ["must_eq_len_locale_action", "must_eq_len_locale_action"];
    } else if |mod.info.actions| != |mod.defActions| {
      return ["must_eq_len_default_action_config", "must_eq_len_default_action_config"];
    } else if |mod.info.actions| != |mod.curActions| {
      return ["must_eq_len_current_action_config", "must_eq_len_current_action_config"];
    } else if |mod.info.actions| != |mod.actionSchema| {
      return ["must_eq_len_action_config_schema", "must_eq_len_action_config_schema"];
    }
    var i := 0;
    while i < |mod.info.actions|
      invariant 0 <= i <= |mod.info.actions|
      invariant reports == [] <==> forall k :: 0 <= k < i ==>
                  mod.info.actions[k] in mod.locale.actions
                  && ActionItemPass(mod, mod.defActions, mod.info.actions[k])
                  && ActionItemPass(mod, mod.curActions, mod.info.actions[k])
    {
      var aid := mod.info.actions[i];
      if aid !in mod.locale.actions {
        reports := reports + ["must_val_in_locale_action"];
      }
      var more := ActionItemReports(mod, mod.defActions, aid);
      reports := reports + more;
      more := ActionItemReports(mod, mod.curActions, aid);
      reports := reports + more;
      i := i + 1;
    }
    if !mod.actionsFit {
      reports := reports + ["must_valid_action_config_by_schema"];
    }
  }

  // ---- Events ----

  predicate IsSimpleType(t: string) {
    t == "string" || t == "boolean" || t == "number" || t == "integer"
  }

  predicate IsDependency(mod: ModuleA, name: string) {
    name == "this" || exists d :: d in mod.dependencies && d.kind == "to_make_action" && d.moduleName == name
  }

  ghost predicate EventActionsPass(mod: ModuleA, ev: EventItem) {
    forall act :: act in ev.actions ==>
      && act.moduleName != mod.info.name && IsDependency(mod, act.moduleName)
      && forall f :: f in act.fields ==> f in ev.fields
  }

  ghost predicate GroupByPass(mod: ModuleA, ev: EventItem) {
    && |ev.groupBy| == |ev.fields|
    && (forall f :: f in ev.fields ==> f in ev.groupBy)
    && (forall f :: f in ev.groupBy ==>
          f in mod.fieldsSchema.properties && IsSimpleType(mod.fieldsSchema.properties[f]))
  }

  ghost predicate SeqPass(ev: EventItem, config: EventConfig) {
    forall name :: name in ev.seqNames ==> name in config && forall f :: f in ev.fields ==> f in config[name].fields
  }

  ghost predicate EventItemPass(mod: ModuleA, config: EventConfig, eid: string) {
    && eid in config && EventActionsPass(mod, config[eid])
    && (config[eid].kind != "atomic" ==> GroupByPass(mod, config[eid]) && SeqPass(config[eid], config))
    && (config[eid].kind == "atomic" ==> eid in mod.eventSchema && eid in mod.locale.eventConfig)
    && |config[eid].config| == |OptionNames(mod.locale.eventConfig, eid)|
    && forall c :: c in config[eid].config ==> c in OptionNames(mod.locale.eventConfig, eid)
  }

  ghost predicate UsedByCurrentEvent(mod: ModuleA, name: string) {
    exists eid, act :: eid in mod.curEvents && act in mod.curEvents[eid].actions && act.moduleName == name
  }

  ghost predicate EventsChecked(mod: ModuleA) {
    && (forall d :: d in mod.dependencies && d.kind == "to_make_action" ==> UsedByCurrentEvent(mod, d.moduleName))
    && |mod.info.events| == |mod.locale.events| == |mod.defEvents| == |mod.curEvents|
    && (forall eid :: eid in mod.info.events ==>
          eid in mod.locale.events
          && EventItemPass(mod, mod.defEvents, eid) && EventItemPass(mod, mod.curEvents, eid))
    && mod.eventsFit
  }

  ghost predicate EventsUnique(config: EventConfig) {
    forall eid :: eid in config ==> NoDuplicates(config[eid].fields) && NoDuplicates(config[eid].groupBy)
  }

  ghost predicate EventsPass(mod: ModuleA) {
    && EventsChecked(mod) && NoDuplicates(mod.info.events)
    && EventsUnique(mod.defEvents) && EventsUnique(mod.curEvents)
  }

  /** The sets of event ids a passing module has all agree, each event's options are exactly those
      that are translated, and the modules its current events act on are its dependencies. */
  lemma EventSetsAgree(mod: ModuleA)
    requires EventsPass(mod)
    ensures SetOf(mod.info.events) == mod.locale.events == mod.defEvents.Keys == mod.curEvents.Keys
    ensures forall eid :: eid in mod.defEvents && eid in mod.curEvents ==>
              mod.defEvents[eid].config == mod.curEvents[eid].config == OptionNames(mod.locale.eventConfig, eid)
  {
    var ids := mod.info.events;
    assert |mod.defEvents.Keys| == |mod.defEvents| && |mod.curEvents.Keys| == |mod.curEvents|;
    forall eid | eid in ids ensures eid in mod.defEvents && eid in mod.curEvents {
      assert EventItemPass(mod, mod.defEvents, eid) && EventItemPass(mod, mod.curEvents, eid);
    }
    ListFillsSet(ids, mod.locale.events);
    ListFillsSet(ids, mod.defEvents.Keys);
    ListFillsSet(ids, mod.curEvents.Keys);
    forall eid | eid in mod.defEvents && eid in mod.curEvents
      ensures mod.defEvents[eid].config == mod.curEvents[eid].config == OptionNames(mod.locale.eventConfig, eid)
    {
      assert eid in SetOf(ids) && EventItemPass(mod, mod.defEvents, eid) && EventItemPass(mod, mod.curEvents, eid);
      SubsetOfSameSize(mod.defEvents[eid].config, OptionNames(mod.locale.eventConfig, eid));
      SubsetOfSameSize(mod.curEvents[eid].config, OptionNames(mod.locale.eventConfig, eid));
    }
  }

  function ActionDependencies(deps: seq<Dependency>): set<string> {
    set d | d in deps && d.kind == "to_make_action" :: d.moduleName
  }

  function ActedOn(events: EventConfig): set<string> {
    set eid, act | eid in events && act in events[eid].actions :: act.moduleName
  }

  lemma ActedOnIsDependency(mod: ModuleA, name: string)
    requires EventsPass(mod) && name in ActedOn(mod.curEvents)
    ensures name != mod.info.name && (name == "this" || name in ActionDependencies(mod.dependencies))
  {
    EventSetsAgree(mod);
    var eid, act :| eid in mod.curEvents && act in mod.curEvents[eid].actions && act.moduleName == name;
    assert eid in SetOf(mod.info.events);
    assert EventItemPass(mod, mod.curEvents, eid);
  }

  lemma DependencyIsActedOn(mod: ModuleA, name: string)
    requires EventsPass(mod) && name in ActionDependencies(mod.dependencies)
    ensures name in ActedOn(mod.curEvents)
  {
    assert UsedByCurrentEvent(mod, name);
  }

  /** "this" may be acted on without being a dependency. */
  lemma DependenciesAgree(mod: ModuleA)
    requires EventsPass(mod)
    ensures ActionDependencies(mod.dependencies) - {"this"} == ActedOn(mod.curEvents) - {"this"}
    ensures mod.info.name !in ActedOn(mod.curEvents)
  {
    forall name | name in ActedOn(mod.curEvents)
      ensures name != mod.info.name && (name == "this" || name in ActionDependencies(mod.dependencies))
    {
      ActedOnIsDependency(mod, name);
    }
    forall name | name in ActionDependencies(mod.dependencies) ensures name in ActedOn(mod.curEvents) {
      DependencyIsActedOn(mod, name);
    }
  }

  /** An event that is not atomic groups by exactly its fields. */
  lemma GroupingIsFields(mod: ModuleA, eid: string)
    requires EventsPass(mod)
    ensures eid in mod.defEvents && mod.defEvents[eid].kind != "atomic" ==>
              SetOf(mod.defEvents[eid].groupBy) == SetOf(mod.defEvents[eid].fields)
    ensures eid in mod.curEvents && mod.curEvents[eid].kind != "atomic" ==>
              SetOf(mod.curEvents[eid].groupBy) == SetOf(mod.curEvents[eid].fields)
  {
    EventSetsAgree(mod);
    if eid in mod.defEvents || eid in mod.curEvents {
      assert eid in SetOf(mod.info.events);
      assert EventItemPass(mod, mod.defEvents, eid) && EventItemPass(mod, mod.curEvents, eid);
      if mod.defEvents[eid].kind != "atomic" {
        GroupingCovers(mod, mod.defEvents[eid]);
      }
      if mod.curEvents[eid].kind != "atomic" {
        GroupingCovers(mod, mod.curEvents[eid]);
      }
    }
  }

  lemma GroupingCovers(mod: ModuleA, ev: EventItem)
    requires GroupByPass(mod, ev) && NoDuplicates(ev.fields)
    ensures SetOf(ev.groupBy) == SetOf(ev.fields)
  {
    SetOfSize(ev.fields);
    SetOfSize(ev.groupBy);
    assert SetOf(ev.fields) <= SetOf(ev.groupBy);
    SubsetSize(SetOf(ev.fields), SetOf(ev.groupBy));
    SubsetOfSameSize(SetOf(ev.fields), SetOf(ev.groupBy));
  }

  method EventActionReports(mod: ModuleA, ev: EventItem) returns (reports: Reports)
    ensures reports == [] <==> EventActionsPass(mod, ev)
  {
    reports := [];
    var i := 0;
    while i < |ev.actions|
      invariant 0 <= i <= |ev.actions|
      invariant reports == [] <==> forall k :: 0 <= k < i ==>
                  ev.actions[k].moduleName != mod.info.name && IsDependency(mod, ev.actions[k].moduleName)
                  && forall f :: f in ev.actions[k].fields ==> f in ev.fields
    {
      var act := ev.actions[i];
      if act.moduleName == mod.info.name {
        reports := reports + ["must_not_using_self_action_in_the_module"];
      }
      if !IsDependency(mod, act.moduleName) {
        reports := reports + ["must_val_in_dynamic_dependencies"];
      }
      var more := KnownFieldReports(act.fields, SetOf(ev.fields));
      reports := reports + more;
      i := i + 1;
    }
  }

  method GroupByReports(mod: ModuleA, ev: EventItem) returns (reports: Reports)
    ensures reports == [] <==> GroupByPass(mod, ev)
  {
    if |ev.groupBy| != |ev.fields| {
      return ["must_eq_len_group_by_value_to_fields", "must_eq_len_fields_value_to_group_by"];
    }
    reports := KnownFieldReports(ev.fields, SetOf(ev.groupBy));
    var i := 0;
    while i < |ev.groupBy|
      invariant 0 <= i <= |ev.groupBy|
      invariant reports == [] <==>
                (forall f :: f in ev.fields ==> f in ev.groupBy)
                && forall k :: 0 <= k < i ==> ev.groupBy[k] in mod.fieldsSchema.properties
                                              && IsSimpleType(mod.fieldsSchema.properties[ev.groupBy[k]])
    {
      var f := ev.groupBy[i];
      if f !in mod.fieldsSchema.properties {
        reports := reports + ["must_val_in_fields_schema"];
      } else if !IsSimpleType(mod.fieldsSchema.properties[f]) {
        reports := reports + ["must_val_as_a_simple_type_for_grouping"];
      }
      i := i + 1;
    }
  }

  method SeqReports(ev: EventItem, config: EventConfig) returns (reports: Reports)
    ensures reports == [] <==> SeqPass(ev, config)
  {
    reports := [];
    var i := 0;
    while i < |ev.seqNames|
      invariant 0 <= i <= |ev.seqNames|
      invariant reports == [] <==> forall k :: 0 <= k < i ==>
                  ev.seqNames[k] in config && forall f :: f in ev.fields ==> f in config[ev.seqNames[k]].fields
    {
      if ev.seqNames[i] !in config {
        reports := reports + ["must_val_in_event_config_for_event_seq"];
      } else {
        var missed := KnownFieldReports(ev.fields, SetOf(config[ev.seqNames[i]].fields));
        if missed != [] {
          reports := reports + ["must_val_in_deps_event_fields_complex_event"];
        }
      }
      i := i + 1;
    }
  }

  method EventItemReports(mod: ModuleA, config: EventConfig, eid: string) returns (reports: Reports)
    ensures reports == [] <==> EventItemPass(mod, config, eid)
  {
    if eid !in config {
      return ["must_val_in_event_config"];
    }
    var ev := config[eid];
    reports := EventActionReports(mod, ev);
    if ev.kind != "atomic" {
      var more := GroupByReports(mod, ev);
      reports := reports + more;
      more := SeqReports(ev, config);
      reports := reports + more;
    }
    if ev.kind == "atomic" && eid !in mod.eventSchema {
      reports := reports + ["must_val_in_event_config_schema"];
    }
    if ev.kind == "atomic" && eid !in mod.locale.eventConfig {
      reports := reports + ["must_val_in_locale_event_config"];
    } else {
      var more := OptionReports(ev.config, OptionNames(mod.locale.eventConfig, eid));
      reports := reports + more;
    }
  }

  method DependencyReports(mod: ModuleA) returns (reports: Reports)
    ensures reports == [] <==>
            forall d :: d in mod.dependencies && d.kind == "to_make_action" ==> UsedByCurrentEvent(mod, d.moduleName)
  {
    reports := [];
    var acted := ActedOn(mod.curEvents);
    var i := 0;
    while i < |mod.dependencies|
      invariant 0 <= i <= |mod.dependencies|
      invariant reports == [] <==> forall k :: 0 <= k < i && mod.dependencies[k].kind == "to_make_action" ==>
                  UsedByCurrentEvent(mod, mod.dependencies[k].moduleName)
    {
      var dep := mod.dependencies[i];
      if dep.kind == "to_make_action" && dep.moduleName !in acted {
        reports := reports + ["must_use_dynamic_dependency_val_in_action_list"];
      }
      i := i + 1;
    }
  }

  method EventReports(mod: ModuleA) returns (reports: Reports)
    ensures reports == [] <==> EventsChecked(mod)
  {
    reports := DependencyReports(mod);
    if |mod.info.events| != |mod.locale.events| {
      return reports + ["must_eq_len_locale_event", "must_eq_len_locale_event"];
    } else if |mod.info.events| != |mod.defEvents| {
      return reports + ["must_eq_len_default_event_config", "must_eq_len_default_event_config"];
    } else if |mod.info.events| != |mod.curEvents| {
      return reports + ["must_eq_len_current_event_config", "must_eq_len_current_event_config"];
    }
    ghost var before := reports;
    var i := 0;
    while i < |mod.info.events|
      invariant 0 <= i <= |mod.info.events|
      invariant reports == [] <==> before == [] && forall k :: 0 <= k < i ==>
                  mod.info.events[k] in mod.locale.events
                  && EventItemPass(mod, mod.defEvents, mod.info.events[k])
                  && EventItemPass(mod, mod.curEvents, mod.info.events[k])
    {
      var eid := mod.info.events[i];
      if eid !in mod.locale.events {
        reports := reports + ["must_val_in_locale_event"];
      }
      var more := EventItemReports(mod, mod.defEvents, eid);
      reports := reports + more;
      more := EventItemReports(mod, mod.curEvents, eid);
      reports := reports + more;
      i := i + 1;
    }
    if !mod.eventsFit {
      reports := reports + ["must_valid_event_config_by_schema"];
    }
  }

  // ---- A whole module ----

  ghost predicate TagsPass(mod: ModuleA) {
    && |mod.info.tags| == |mod.locale.tags| && (forall t :: t in mod.info.tags ==> t in mod.locale.tags)
    && NoDuplicates(mod.info.tags)
  }

  ghost predicate ModulePass(mod: ModuleA) {
    TagsPass(mod) && FieldsPass(mod) && ActionsPass(mod) && EventsPass(mod)
  }

  method UniqueActionReports(config: ActionConfig) returns (reports: Reports)
    ensures reports == [] <==> ActionsUnique(config)
  {
    reports := [];
    var rest := config.Keys;
    while rest != {}
      invariant rest <= config.Keys
      invariant reports == [] <==> forall aid :: aid in config && aid !in rest ==> NoDuplicates(config[aid].fields)
      decreases |rest|
    {
      var aid :| aid in rest;
      var more := UniqueReports(config[aid].fields);
      reports := reports + more;
      rest := rest - {aid};
    }
  }

  method UniqueEventReports(config: EventConfig) returns (reports: Reports)
    ensures reports == [] <==> EventsUnique(config)
  {
    reports := [];
    var rest := config.Keys;
    while rest != {}
      invariant rest <= config.Keys
      invariant reports == [] <==>
                forall eid :: eid in config && eid !in rest ==>
                  NoDuplicates(config[eid].fields) && NoDuplicates(config[eid].groupBy)
      decreases |rest|
    {
      var eid :| eid in rest;
      var more := UniqueReports(config[eid].fields);
      reports := reports + more;
      more := UniqueReports(config[eid].groupBy);
      reports := reports + more;
      rest := rest - {eid};
    }
  }

  method UniqueInModule(mod: ModuleA) returns (reports: Reports)
    ensures reports == [] <==>
              && NoDuplicates(mod.info.tags) && NoDuplicates(mod.info.fields)
              && NoDuplicates(mod.info.actions) && NoDuplicates(mod.info.events)
              && ActionsUnique(mod.defActions) && ActionsUnique(mod.curActions)
              && EventsUnique(mod.defEvents) && EventsUnique(mod.curEvents)
  {
    reports := UniqueReports(mod.info.tags);
    var more := UniqueReports(mod.info.fields);
    reports := reports + more;
    more := UniqueReports(mod.info.actions);
    reports := reports + more;
    more := UniqueReports(mod.info.events);
    reports := reports + more;
    more := UniqueActionReports(mod.defActions);
    reports := reports + more;
    more := UniqueActionReports(mod.curActions);
    reports := reports + more;
    more := UniqueEventReports(mod.defEvents);
    reports := reports + more;
    more := UniqueEventReports(mod.curEvents);
    reports := reports + more;
  }

  /** The tags of the fields first, then the checks on the module as a whole. */
  method ModuleReports(mod: ModuleA) returns (reports: Reports)
    ensures reports == [] <==> ModulePass(mod)
  {
    reports := UniqueInModule(mod);
    var more := TagReports(mod);
    reports := reports + more;
    more := FieldReports(mod);
    reports := reports + more;
    more := ActionReports(mod);
    reports := reports + more;
    more := EventReports(mod);
    reports := reports + more;
  }

  /** A module without reports: every list of ids is the set of keys it was compared with. */
  lemma PassingModuleAgrees(mod: ModuleA)
    requires ModulePass(mod)
    ensures SetOf(mod.info.tags) == mod.locale.tags
    ensures SetOf(mod.info.fields) == mod.fieldsSchema.properties.Keys == mod.locale.fields == UsedFields(mod)
    ensures SetOf(mod.info.actions) == mod.locale.actions == mod.actionSchema
    ensures mod.locale.actions == mod.defActions.Keys == mod.curActions.Keys
    ensures SetOf(mod.info.events) == mod.locale.events == mod.defEvents.Keys == mod.curEvents.Keys
    ensures ActionDependencies(mod.dependencies) - {"this"} == ActedOn(mod.curEvents) - {"this"}
  {
    ListFillsSet(mod.info.tags, mod.locale.tags);
    FieldSetsAgree(mod);
    ActionSetsAgree(mod);
    EventSetsAgree(mod);
    DependenciesAgree(mod);
  }
}
