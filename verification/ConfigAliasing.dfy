/** What building an agent's additions does to the configuration the caller passed in: its nested maps are
    linked into the additions before the translation is merged over them. */
module ConfigAliasing {
  import opened Codec
  import opened ConfigTree
  import opened ConfigAdditions
  import opened DeepMerge

  /** The tools a configuration disables, as the translation reads them. */
  function DisabledTools(norm: map<string, Input>): seq<string> {
    if DISABLED_TOOLS in norm then ToStrings(norm[DISABLED_TOOLS]) else []
  }

  /** The native tools table, if it is a map, already has every disabled tool switched off. */
  predicate ToolsAreOff(native: map<string, Tree>, norm: map<string, Input>) {
    "tools" in native && native["tools"].Branch? ==>
      forall t :: t in DisabledTools(norm) ==>
          t in native["tools"].kids && native["tools"].kids[t] == Scalar(Flag(false))
  }

  /** At no key that stays is the native map changed by what is merged over it. */
  predicate KeepsNative(native: map<string, Tree>, forbidden: set<string>, translated: map<string, Tree>) {
    forall k :: k in native && k !in forbidden && k in translated && native[k].Branch? && translated[k].Branch? ==>
      Merge(native[k], translated[k]) == native[k]
  }

  lemma ScalarReplaces(t: Tree, d: Datum)
    ensures Merge(t, Scalar(d)) == Scalar(d)
  {
  }

  lemma MergingFlagsIff(kids: map<string, Tree>, tools: seq<string>)
    ensures Merge(Branch(kids), Branch(WithAll(map[], tools, Flag(false)))) == Branch(kids)
            <==> forall t :: t in tools ==> t in kids && kids[t] == Scalar(Flag(false))
  {
    var off := WithAll(map[], tools, Flag(false));
    var m := Merge(Branch(kids), Branch(off)).kids;
    assert forall t :: t in off <==> t in tools;
    forall t | t in off
      ensures t in m && m[t] == Scalar(Flag(false))
    {
      if t in kids {
        ScalarReplaces(kids[t], Flag(false));
      }
    }
    if forall t :: t in tools ==> t in kids && kids[t] == Scalar(Flag(false)) {
      assert m == kids;
    }
    if m == kids {
      forall t | t in tools
        ensures t in kids && kids[t] == Scalar(Flag(false))
      {
        assert t in off && t in m;
      }
    }
  }

  /** For claude and codex, whose translated maps all stand at keys the native layer may not have, and for
      other agents, nothing of the native layer is ever changed; for opencode exactly if its tools table lacks
      an entry the translation puts there. */
  lemma NativeKeptIff(agent: Agent, native: map<string, Tree>, norm: map<string, Input>, order: seq<string>)
    requires Enumerates(norm, order)
    ensures KeepsNative(native, ForbiddenKeys(agent), Finish(Fold(agent, ForbiddenKeys(agent), norm, order)).native)
            <==> agent.Opencode? ==> ToolsAreOff(native, norm)
  {
    TranslatedFits(agent, norm, order);
    var a := Fold(agent, ForbiddenKeys(agent), norm, order);
    hide Fold, ToStrings, WithAll;
    if agent.Opencode? {
      OpencodeKeptIff(native, norm, a);
    }
  }

  lemma OpencodeKeptIff(native: map<string, Tree>, norm: map<string, Input>, a: Acc)
    requires
      var f := ForbiddenKeys(Opencode);
      OpencodeFits(Part(f, norm, norm.Keys, DISABLED_TOOLS), Part(f, norm, norm.Keys, ALLOWED_COMMANDS),
                   Part(f, norm, norm.Keys, DENIED_COMMANDS), a)
    ensures KeepsNative(native, ForbiddenKeys(Opencode), Finish(a).native) <==> ToolsAreOff(native, norm)
  {
    var tools := DisabledTools(norm);
    assert tools == Part(ForbiddenKeys(Opencode), norm, norm.Keys, DISABLED_TOOLS);
    if "tools" in native && native["tools"].Branch? {
      MergingFlagsIff(native["tools"].kids, tools);
    }
    hide ToStrings, WithAll, Part, DisabledTools, Merge, BashFits;
  }

  // ------------------------------------------------------------------ on the heap

  lemma SaysWhatTreesSay(p: Shape, n: Shape, forbidden: set<string>)
    requires p.At? && n.At?
    ensures AlreadySays(p, n, forbidden) <==> KeepsNative(TreeOf(p).kids, forbidden, TreeOf(n).kids)
  {
    assert forall j :: j in p.kids ==>
           (p.kids[j].At? <==> TreeOf(p).kids[j].Branch?) && TreeOf(p).kids[j] == TreeOf(p.kids[j]);
    assert forall j :: j in n.kids ==>
           (n.kids[j].At? <==> TreeOf(n).kids[j].Branch?) && TreeOf(n).kids[j] == TreeOf(n.kids[j]);
    hide Merge;
  }

  /** buildAdditions on the maps themselves: `translated` is what some order of the normalized keys gave. The
      additions show what they should, but the caller's native maps contain what they did exactly if the
      agent is not opencode or the tools table had every disabled tool switched off. */
  method BuildOnMaps(agent: Agent, native: MapNode, translated: MapNode, ghost norm: map<string, Input>,
                     ghost order: seq<string>,
                     ghost p: Shape, ghost n: Shape) returns (additions: MapNode, ghost shown: Shape)
    requires Enumerates(norm, order)
    requires p.At? && p.node == native && n.At? && n.node == translated && IsTree(p) && Nodes(p) !! Nodes(n)
    requires Matches(Contents(Nodes(p) + Nodes(n)), p) && Matches(Contents(Nodes(p) + Nodes(n)), n)
    requires TreeOf(n) == Branch(Finish(Fold(agent, ForbiddenKeys(agent), norm, order)).native)
    modifies Nodes(p) + Nodes(n)
    ensures fresh(additions) && shown.At? && shown.node == additions && Matches(Contents(Nodes(shown)), shown)
    ensures TreeOf(shown) ==
            Branch(Additions(Some(TreeOf(p).kids), ForbiddenKeys(agent),
                Finish(Fold(agent, ForbiddenKeys(agent), norm, order))).0)
    ensures Contents(Nodes(p)) == old(Contents(Nodes(p))) <==> (agent.Opencode? ==> ToolsAreOff(TreeOf(p).kids, norm))
  {
    hide Matches, Nodes, Contents, Fold, Finish, Merge, IsTree, AlreadySays, KeepsNative, ToolsAreOff, ForbiddenKeys;
    additions, shown := LayerAdditions(native, translated, ForbiddenKeys(agent), p, n);
    SaysWhatTreesSay(p, n, ForbiddenKeys(agent));
    NativeKeptIff(agent, TreeOf(p).kids, norm, order);
    AdditionsShown(p, Finish(Fold(agent, ForbiddenKeys(agent), norm, order)), ForbiddenKeys(agent));
  }

  lemma AdditionsShown(p: Shape, t: Translation, forbidden: set<string>)
    requires p.At?
    ensures Merge(Branch(map j | j in p.kids && j !in forbidden :: TreeOf(p.kids[j])), Branch(t.native))
            == Branch(Additions(Some(TreeOf(p).kids), forbidden, t).0)
    ensures TreeOf(p).Branch?
  {
    assert (map j | j in p.kids && j !in forbidden :: TreeOf(p.kids[j])) ==
           ConfigAdditions.Kept(TreeOf(p).kids, forbidden);
  }

  /** It does happen: opencode's native tools table switches one tool on, and another is disabled. */
  lemma ToolsTableIsOverwritten() returns (native: map<string, Tree>, norm: map<string, Input>, order: seq<string>)
    ensures Enumerates(norm, order)
    ensures !KeepsNative(native, ForbiddenKeys(Opencode),
            Finish(Fold(Opencode, ForbiddenKeys(Opencode), norm, order)).native)
  {
    native := map["tools" := Branch(map["webfetch" := Scalar(Flag(true))])];
    norm := map[DISABLED_TOOLS := Strs(["bash"])];
    order := [DISABLED_TOOLS];
    NativeKeptIff(Opencode, native, norm, order);
    assert "bash" in DisabledTools(norm);
  }
}
