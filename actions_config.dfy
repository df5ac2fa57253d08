/** The action configuration of `src/lib/actionsConfig.ts`: which default
    actions are hidden and which custom actions the user has defined. The
    browser slot the configuration lives in is modelled as an object whose
    fields the operations update in place; reading it back from and writing
    it to storage, and the cloud copy, are not modelled. */
module ActionsConfig {
  import opened Common
  import opened Seqs
  import opened Text
  import opened SportsTypes

  /** A user-defined action. `points` is accepted on creation but never
      stored, so it stays absent on every action this module creates. */
  datatype CustomAction = CustomAction(
    id: string, caption: string, sport: Sport, category: PointType,
    points: Option<int>, sigil: Option<string>, showOnCourt: Option<bool>,
    assignToPlayer: Option<bool>)

  datatype ActionsConfig = ActionsConfig(hiddenActions: seq<string>, customActions: seq<CustomAction>)

  /** `getDefaultConfig`: the two volleyball "Other" keys are hidden. */
  function DefaultConfig(): ActionsConfig
  {
    ActionsConfig([Key(OtherOffensive), Key(OtherVolleyFault)], [])
  }

  /** The default hides exactly the volleyball "Other" scored and fault keys
      and defines no custom action. */
  lemma DefaultHidesVolleyballOthers(k: string)
    ensures k in DefaultConfig().hiddenActions
            <==> k == Key(OtherActionKeys(Volleyball).value.scored)
                 || k == Key(OtherActionKeys(Volleyball).value.fault)
    ensures Key(OtherActionKeys(Volleyball).value.neutral) !in DefaultConfig().hiddenActions
    ensures DefaultConfig().customActions == []
  {
    assert Key(OtherVolleyNeutral) != Key(OtherOffensive) by {
      assert Key(OtherVolleyNeutral)[6] != Key(OtherOffensive)[6];
    }
    assert Key(OtherVolleyNeutral) != Key(OtherVolleyFault) by {
      assert Key(OtherVolleyNeutral)[13] != Key(OtherVolleyFault)[13];
    }
  }

  /** `s.indexOf(k)`: the first position of `k`, or -1. */
  function IndexOf(s: seq<string>, k: string): (i: int)
    ensures -1 <= i < |s|
    ensures i >= 0 ==> s[i] == k && k !in s[..i]
    ensures i < 0 <==> k !in s
  {
    if s == [] then -1
    else if s[0] == k then 0
    else
      var j := IndexOf(s[1..], k);
      if j < 0 then -1 else j + 1
  }

  /** The hidden list after `toggleActionVisibility(key)`: the first
      occurrence removed, or the key appended. */
  function Toggled(hidden: seq<string>, key: string): seq<string>
  {
    var idx := IndexOf(hidden, key);
    if idx >= 0 then hidden[..idx] + hidden[idx + 1..] else hidden + [key]
  }

  predicate NoDup(s: seq<string>)
  {
    forall i, j :: 0 <= i < j < |s| ==> s[i] != s[j]
  }

  /** Toggling removes one occurrence of a hidden key or adds an absent one,
      and touches no other key. */
  lemma ToggleMultiset(hidden: seq<string>, key: string)
    ensures multiset(Toggled(hidden, key))
            == if key in hidden then multiset(hidden) - multiset{key} else multiset(hidden) + multiset{key}
  {
    var idx := IndexOf(hidden, key);
    if idx >= 0 {
      assert hidden == hidden[..idx] + [key] + hidden[idx + 1..];
    }
  }

  /** On a list without repeats, toggling flips the key's membership, keeps
      every other key's, and keeps the list free of repeats. */
  lemma ToggleFlips(hidden: seq<string>, key: string, other: string)
    requires NoDup(hidden)
    ensures key in Toggled(hidden, key) <==> key !in hidden
    ensures other != key ==> (other in Toggled(hidden, key) <==> other in hidden)
    ensures NoDup(Toggled(hidden, key))
  {
    ToggleMultiset(hidden, key);
    var t := Toggled(hidden, key);
    assert key in t <==> key in multiset(t);
    assert other in t <==> other in multiset(t);
    assert other in hidden <==> other in multiset(hidden);
    var idx := IndexOf(hidden, key);
    if idx >= 0 {
      assert multiset(hidden)[key] == 1 by {
        MultiplicityOne(hidden, idx);
      }
    }
  }

  /** In a list without repeats an element occurs once. */
  lemma {:induction false} MultiplicityOne(s: seq<string>, i: nat)
    requires NoDup(s) && i < |s|
    ensures multiset(s)[s[i]] == 1
  {
    if i == 0 {
      assert s == [s[0]] + s[1..];
      assert s[0] !in s[1..];
    } else {
      assert s == [s[0]] + s[1..];
      assert s[0] != s[i];
      MultiplicityOne(s[1..], i - 1);
    }
  }

  /** Toggling twice restores the list's contents, for a list without
      repeats. */
  lemma ToggleTwice(hidden: seq<string>, key: string)
    requires NoDup(hidden)
    ensures multiset(Toggled(Toggled(hidden, key), key)) == multiset(hidden)
  {
    ToggleFlips(hidden, key, key);
    ToggleMultiset(hidden, key);
    ToggleMultiset(Toggled(hidden, key), key);
  }

  /** `sigil.slice(0, 2).toUpperCase()`. */
  function NormalizeSigil(s: string): (r: string)
    ensures |r| <= 2 && |r| == if |s| < 2 then |s| else 2
    ensures forall i :: 0 <= i < |r| ==> r[i] == UpperChar(s[i])
    ensures forall i :: 0 <= i < |r| ==> !('a' <= r[i] <= 'z')
  {
    ToUpper(Take(s, 2))
  }

  /** The record `addCustomAction` pushes: trimmed label; a sigil only when a
      non-empty one is given; shown on the court unless neutral and assigned
      to a player unless told otherwise. */
  function NewCustomAction(id: string, caption: string, sport: Sport, category: PointType,
                           sigil: Option<string>, showOnCourt: Option<bool>,
                           assignToPlayer: Option<bool>): (a: CustomAction)
    ensures a.id == id && a.sport == sport && a.category == category
    ensures a.caption == Trim(caption) && a.points == None
    ensures a.sigil.Some? <==> sigil.Some? && sigil.value != []
    ensures a.sigil == if sigil.Some? && sigil.value != [] then Some(NormalizeSigil(sigil.value)) else None
    ensures a.sigil.Some? ==> 1 <= |a.sigil.value| <= 2
    ensures a.showOnCourt == Some(if showOnCourt.Some? then showOnCourt.value else category != Neutral)
    ensures a.assignToPlayer == Some(if assignToPlayer.Some? then assignToPlayer.value else true)
  {
    CustomAction(id, Trim(caption), sport, category, None,
                 if sigil.Some? && sigil.value != [] then Some(NormalizeSigil(sigil.value)) else None,
                 Some(showOnCourt.GetOr(category != Neutral)),
                 Some(assignToPlayer.GetOr(true)))
  }

  /** The fields `updateCustomAction` assigns: the label always (trimmed),
      the others only when given. */
  function UpdatedAction(a: CustomAction, caption: string, sigil: Option<string>,
                         showOnCourt: Option<bool>, assignToPlayer: Option<bool>): (u: CustomAction)
    ensures u.id == a.id && u.sport == a.sport && u.category == a.category && u.points == a.points
    ensures u.caption == Trim(caption)
    ensures sigil.None? ==> u.sigil == a.sigil
    ensures sigil.Some? ==> u.sigil == Some(NormalizeSigil(sigil.value)) && |u.sigil.value| <= 2
    ensures u.showOnCourt == if showOnCourt.Some? then showOnCourt else a.showOnCourt
    ensures u.assignToPlayer == if assignToPlayer.Some? then assignToPlayer else a.assignToPlayer
  {
    a.(caption := Trim(caption),
       sigil := if sigil.Some? then Some(NormalizeSigil(sigil.value)) else a.sigil,
       showOnCourt := if showOnCourt.Some? then showOnCourt else a.showOnCourt,
       assignToPlayer := if assignToPlayer.Some? then assignToPlayer else a.assignToPlayer)
  }

  /** `customActions.find(a => a.id === id)`, as a position: the first
      action with that id, or -1. */
  function FindById(actions: seq<CustomAction>, id: string): (i: int)
    ensures -1 <= i < |actions|
    ensures i >= 0 ==> actions[i].id == id
    ensures forall j :: 0 <= j < |actions| && (i < 0 || j < i) ==> actions[j].id != id
  {
    if actions == [] then -1
    else if actions[0].id == id then 0
    else
      var j := FindById(actions[1..], id);
      if j < 0 then -1 else j + 1
  }

  /** The list after `updateCustomAction`: the first action with the id
      updated, every other action kept; an unknown id changes nothing. */
  function UpdatedActions(actions: seq<CustomAction>, id: string, caption: string, sigil: Option<string>,
                          showOnCourt: Option<bool>, assignToPlayer: Option<bool>): (r: seq<CustomAction>)
    ensures |r| == |actions|
    ensures FindById(actions, id) < 0 ==> r == actions
    ensures var i := FindById(actions, id);
      i >= 0 ==> r[i] == UpdatedAction(actions[i], caption, sigil, showOnCourt, assignToPlayer)
    ensures forall j :: 0 <= j < |actions| && j != FindById(actions, id) ==> r[j] == actions[j]
  {
    var i := FindById(actions, id);
    if i < 0 then actions
    else actions[i := UpdatedAction(actions[i], caption, sigil, showOnCourt, assignToPlayer)]
  }

  /** `a => a.id !== id`. */
  function IdIsNot(id: string): CustomAction -> bool
  {
    (a: CustomAction) => a.id != id
  }

  /** Deleting keeps, in order, exactly the actions with another id. */
  lemma DeleteKeepsOthers(actions: seq<CustomAction>, id: string)
    ensures IsSubsequence(Filter(actions, IdIsNot(id)), actions)
    ensures forall i :: 0 <= i < |Filter(actions, IdIsNot(id))| ==> Filter(actions, IdIsNot(id))[i].id != id
    ensures forall i :: 0 <= i < |actions| && actions[i].id != id ==> actions[i] in Filter(actions, IdIsNot(id))
  {
    FilterIsSubsequence(actions, IdIsNot(id));
  }

  /** `getCustomActionRealKey`: the sport's "Other" key for the action's
      category. Only volleyball has such keys; for another sport the source
      reads a field of `undefined` and throws, which is `None` here. */
  function RealKey(c: CustomAction): (r: Option<ActionType>)
    ensures r.Some? <==> c.sport == Volleyball
  {
    match OtherActionKeys(c.sport)
    case None => None
    case Some(keys) =>
      if c.category == Neutral then Some(keys.neutral)
      else Some(if c.category == Scored then keys.scored else keys.fault)
  }

  /** A volleyball custom action is recorded under the "Other" key of its
      category: an offensive key exactly for a scored one. */
  lemma RealKeyByCategory(c: CustomAction)
    requires c.sport == Volleyball
    ensures c.category == Scored ==> RealKey(c) == Some(OtherOffensive)
    ensures c.category == Fault ==> RealKey(c) == Some(OtherVolleyFault)
    ensures c.category == Neutral ==> RealKey(c) == Some(OtherVolleyNeutral)
    ensures IsOffensiveAction(RealKey(c).value) <==> c.category == Scored
  {
  }

  /** A `{ key, label, points? }` entry handed in by the caller. */
  datatype DefaultAction = DefaultAction(key: string, caption: string, points: Option<int>)

  /** An entry of the list `getVisibleActions` returns. */
  datatype VisibleAction = VisibleAction(
    key: string, caption: string, points: Option<int>, customId: Option<string>,
    sigil: Option<string>, showOnCourt: Option<bool>, assignToPlayer: Option<bool>)

  function NotHiddenDefault(hidden: seq<string>): DefaultAction -> bool
  {
    (d: DefaultAction) => d.key !in hidden
  }

  function ShownCustom(hidden: seq<string>, sport: Sport, category: PointType): CustomAction -> bool
  {
    (c: CustomAction) => c.sport == sport && c.category == category && c.id !in hidden
  }

  function DefaultEntry(d: DefaultAction): VisibleAction
  {
    VisibleAction(d.key, d.caption, d.points, None, None, None, None)
  }

  /** The entry for a custom action: its real key, its label and id, and its
      sigil (when non-empty), court and player flags (when set). */
  function CustomEntry(c: CustomAction, key: ActionType): VisibleAction
  {
    VisibleAction(Key(key), c.caption, None, Some(c.id),
                  if c.sigil.Some? && c.sigil.value != [] then c.sigil else None,
                  c.showOnCourt, c.assignToPlayer)
  }

  /** The `.map` over the shown custom actions; `None` if a real key lookup
      throws. */
  function CustomEntries(cs: seq<CustomAction>): (r: Option<seq<VisibleAction>>)
    ensures r.None? <==> exists i :: 0 <= i < |cs| && RealKey(cs[i]).None?
    ensures r.Some? ==> |r.value| == |cs|
    ensures r.Some? ==> forall i :: 0 <= i < |cs| ==> r.value[i] == CustomEntry(cs[i], RealKey(cs[i]).value)
  {
    if cs == [] then Some([])
    else
      match RealKey(cs[0])
      case None => None
      case Some(k) =>
        match CustomEntries(cs[1..])
        case None => None
        case Some(rest) => Some([CustomEntry(cs[0], k)] + rest)
  }

  function DefaultEntries(ds: seq<DefaultAction>): (r: seq<VisibleAction>)
    ensures |r| == |ds| && forall i :: 0 <= i < |ds| ==> r[i] == DefaultEntry(ds[i])
  {
    if ds == [] then [] else [DefaultEntry(ds[0])] + DefaultEntries(ds[1..])
  }

  /** `getVisibleActions`: the non-hidden defaults, then the custom actions
      of this sport and category whose id is not hidden. */
  function VisibleActions(config: ActionsConfig, sport: Sport, category: PointType,
                          defaults: seq<DefaultAction>): (r: Option<seq<VisibleAction>>)
    ensures r.None? <==> sport != Volleyball && Filter(config.customActions, ShownCustom(config.hiddenActions, sport, category)) != []
  {
    var visible := Filter(defaults, NotHiddenDefault(config.hiddenActions));
    var customs := Filter(config.customActions, ShownCustom(config.hiddenActions, sport, category));
    match CustomEntries(customs)
    case None => None
    case Some(entries) => Some(DefaultEntries(visible) + entries)
  }

  /** The entries of the non-hidden defaults carry no custom id and no
      hidden key. */
  lemma DefaultEntriesNotHidden(hidden: seq<string>, defaults: seq<DefaultAction>)
    ensures var es := DefaultEntries(Filter(defaults, NotHiddenDefault(hidden)));
      forall i :: 0 <= i < |es| ==> es[i].customId.None? && es[i].key !in hidden
  {
    var visible := Filter(defaults, NotHiddenDefault(hidden));
    forall i | 0 <= i < |visible|
      ensures DefaultEntries(visible)[i].customId.None? && DefaultEntries(visible)[i].key !in hidden
    {
      assert NotHiddenDefault(hidden)(visible[i]);
    }
  }

  /** Every shown custom action has the requested sport and category and an
      id that is not hidden. */
  lemma ShownCustomsMatch(config: ActionsConfig, sport: Sport, category: PointType)
    ensures var customs := Filter(config.customActions, ShownCustom(config.hiddenActions, sport, category));
      && (forall k :: 0 <= k < |customs| ==>
            customs[k].sport == sport && customs[k].category == category && customs[k].id !in config.hiddenActions)
      && IsSubsequence(customs, config.customActions)
  {
    var customs := Filter(config.customActions, ShownCustom(config.hiddenActions, sport, category));
    forall k | 0 <= k < |customs|
      ensures customs[k].sport == sport && customs[k].category == category && customs[k].id !in config.hiddenActions
    {
      assert ShownCustom(config.hiddenActions, sport, category)(customs[k]);
    }
    FilterIsSubsequence(config.customActions, ShownCustom(config.hiddenActions, sport, category));
  }

  /** Defaults come first, none of them hidden; then, in order, one entry
      per custom action of the requested sport and category whose id is not
      hidden, carrying that action's id. */
  lemma VisibleActionsNeverHidden(config: ActionsConfig, sport: Sport, category: PointType,
                                  defaults: seq<DefaultAction>)
    requires VisibleActions(config, sport, category, defaults).Some?
    ensures var vs := VisibleActions(config, sport, category, defaults).value;
      var nd := |Filter(defaults, NotHiddenDefault(config.hiddenActions))|;
      var customs := Filter(config.customActions, ShownCustom(config.hiddenActions, sport, category));
      && |vs| == nd + |customs|
      && (forall i :: 0 <= i < nd ==> vs[i].customId.None? && vs[i].key !in config.hiddenActions)
      && (forall k :: 0 <= k < |customs| ==>
            && vs[nd + k].customId == Some(customs[k].id)
            && customs[k].sport == sport && customs[k].category == category
            && customs[k].id !in config.hiddenActions)
      && IsSubsequence(customs, config.customActions)
  {
    var visible := Filter(defaults, NotHiddenDefault(config.hiddenActions));
    var vs := VisibleActions(config, sport, category, defaults).value;
    VisibleDefaultsFirst(config, sport, category, defaults);
    forall k | 0 <= k < |ShownCustoms(config, sport, category)|
      ensures vs[|visible| + k].customId == Some(ShownCustoms(config, sport, category)[k].id)
    {
      VisibleCustomsEntries(config, sport, category, defaults, k);
    }
    DefaultEntriesNotHidden(config.hiddenActions, defaults);
    ShownCustomsMatch(config, sport, category);
    assert forall i :: 0 <= i < |visible| ==> vs[i] == vs[..|visible|][i];
  }

  /** When it succeeds, `getVisibleActions` is the default entries followed
      by the custom entries. */
  lemma VisibleActionsParts(config: ActionsConfig, sport: Sport, category: PointType,
                            defaults: seq<DefaultAction>)
    requires VisibleActions(config, sport, category, defaults).Some?
    ensures var customs := Filter(config.customActions, ShownCustom(config.hiddenActions, sport, category));
      && CustomEntries(customs).Some?
      && VisibleActions(config, sport, category, defaults).value
         == DefaultEntries(Filter(defaults, NotHiddenDefault(config.hiddenActions))) + CustomEntries(customs).value
  {
  }

  /** The list opens with the entries of the non-hidden defaults, in the
      order given, and then has one entry per shown custom action. */
  lemma VisibleDefaultsFirst(config: ActionsConfig, sport: Sport, category: PointType,
                             defaults: seq<DefaultAction>)
    requires VisibleActions(config, sport, category, defaults).Some?
    ensures var vs := VisibleActions(config, sport, category, defaults).value;
      var visible := Filter(defaults, NotHiddenDefault(config.hiddenActions));
      var customs := Filter(config.customActions, ShownCustom(config.hiddenActions, sport, category));
      && |vs| == |visible| + |customs|
      && vs[..|visible|] == DefaultEntries(visible)
      && IsSubsequence(visible, defaults)
  {
    var visible := Filter(defaults, NotHiddenDefault(config.hiddenActions));
    var customs := Filter(config.customActions, ShownCustom(config.hiddenActions, sport, category));
    VisibleActionsParts(config, sport, category, defaults);
    AppendParts(DefaultEntries(visible), CustomEntries(customs).value);
    FilterIsSubsequence(defaults, NotHiddenDefault(config.hiddenActions));
  }

  /** The defaults `getVisibleActions` keeps: those whose key is not hidden. */
  function VisibleDefaults(config: ActionsConfig, defaults: seq<DefaultAction>): seq<DefaultAction>
  {
    Filter(defaults, NotHiddenDefault(config.hiddenActions))
  }

  /** The custom actions `getVisibleActions` shows. */
  function ShownCustoms(config: ActionsConfig, sport: Sport, category: PointType): seq<CustomAction>
  {
    Filter(config.customActions, ShownCustom(config.hiddenActions, sport, category))
  }

  /** After the defaults, each shown custom action has its own entry, under
      its real key, in the configured order. */
  lemma VisibleCustomsEntries(config: ActionsConfig, sport: Sport, category: PointType,
                              defaults: seq<DefaultAction>, k: nat)
    requires VisibleActions(config, sport, category, defaults).Some?
    requires k < |ShownCustoms(config, sport, category)|
    ensures var customs := ShownCustoms(config, sport, category);
      && RealKey(customs[k]).Some?
      && |VisibleDefaults(config, defaults)| + k < |VisibleActions(config, sport, category, defaults).value|
      && VisibleActions(config, sport, category, defaults).value[|VisibleDefaults(config, defaults)| + k]
         == CustomEntry(customs[k], RealKey(customs[k]).value)
  {
    VisibleActionsParts(config, sport, category, defaults);
    var ds, es := DefaultEntries(VisibleDefaults(config, defaults)), CustomEntries(ShownCustoms(config, sport, category)).value;
    assert VisibleActions(config, sport, category, defaults).value[|ds| + k] == es[k];
  }

  /** The stored configuration. */
  class ActionsStore {
    var hiddenActions: seq<string>
    var customActions: seq<CustomAction>

    function Config(): ActionsConfig
      reads this
    {
      ActionsConfig(hiddenActions, customActions)
    }

    /** What is read when nothing has been stored yet. */
    constructor()
      ensures Config() == DefaultConfig()
    {
      hiddenActions := DefaultConfig().hiddenActions;
      customActions := DefaultConfig().customActions;
    }

    /** `hydrateActionsConfig`: each list from the cloud copy when it has
        one, else the local one. */
    method Hydrate(cloudCustomActions: Option<seq<CustomAction>>, cloudHiddenActions: Option<seq<string>>)
      modifies this
      ensures hiddenActions == if cloudHiddenActions.Some? then cloudHiddenActions.value else old(hiddenActions)
      ensures customActions == if cloudCustomActions.Some? then cloudCustomActions.value else old(customActions)
    {
      hiddenActions := cloudHiddenActions.GetOr(hiddenActions);
      customActions := cloudCustomActions.GetOr(customActions);
    }

    /** `toggleActionVisibility`: splice out the key's first occurrence, or
        push it. */
    method ToggleActionVisibility(key: string) returns (c: ActionsConfig)
      modifies this
      ensures hiddenActions == Toggled(old(hiddenActions), key)
      ensures multiset(hiddenActions)
              == if key in old(hiddenActions) then multiset(old(hiddenActions)) - multiset{key}
                 else multiset(old(hiddenActions)) + multiset{key}
      ensures customActions == old(customActions)
      ensures c == Config()
    {
      var idx := IndexOf(hiddenActions, key);
      if idx >= 0 {
        hiddenActions := hiddenActions[..idx] + hiddenActions[idx + 1..];
      } else {
        hiddenActions := hiddenActions + [key];
      }
      ToggleMultiset(old(hiddenActions), key);
      c := Config();
    }

    /** `addCustomAction`: push one new action; the id, which the source
        draws from `crypto.randomUUID`, is passed in. */
    method AddCustomAction(id: string, caption: string, sport: Sport, category: PointType,
                           points: Option<int>, sigil: Option<string>, showOnCourt: Option<bool>,
                           assignToPlayer: Option<bool>) returns (c: ActionsConfig)
      modifies this
      ensures customActions == old(customActions)
                               + [NewCustomAction(id, caption, sport, category, sigil, showOnCourt, assignToPlayer)]
      ensures hiddenActions == old(hiddenActions)
      ensures c == Config()
    {
      var action := NewCustomAction(id, caption, sport, category, sigil, showOnCourt, assignToPlayer);
      customActions := customActions + [action];
      c := Config();
    }

    /** `updateCustomAction`: assign the given fields of the first action
        with that id; with no such action nothing changes. */
    method UpdateCustomAction(id: string, caption: string, points: Option<int>, sigil: Option<string>,
                              showOnCourt: Option<bool>, assignToPlayer: Option<bool>) returns (c: ActionsConfig)
      modifies this
      ensures customActions == UpdatedActions(old(customActions), id, caption, sigil, showOnCourt, assignToPlayer)
      ensures hiddenActions == old(hiddenActions)
      ensures c == Config()
    {
      var i := FindById(customActions, id);
      if i >= 0 {
        var updated := UpdatedAction(customActions[i], caption, sigil, showOnCourt, assignToPlayer);
        customActions := customActions[i := updated];
      }
      c := Config();
    }

    /** `deleteCustomAction`: keep the actions with another id. */
    method DeleteCustomAction(id: string) returns (c: ActionsConfig)
      modifies this
      ensures customActions == Filter(old(customActions), IdIsNot(id))
      ensures forall i :: 0 <= i < |customActions| ==> customActions[i].id != id
      ensures hiddenActions == old(hiddenActions)
      ensures c == Config()
    {
      customActions := Filter(customActions, IdIsNot(id));
      c := Config();
    }
  }
}
