/** How the settings of a configuration that is being read make up the spine of values that the
    grammar's actions are described on. */
module HeapSpine {
  import opened Wrappers
  import opened Settings
  import opened SettingHeap
  import opened SettingTrees
  import opened ParseActions

  /** The settings that are open, from the root to `ctx->parent`. */
  ghost predicate FrameOk(config: Config, path: seq<Node>, spine: seq<Frame>, loose: Node?, closed: set<Node>, i: nat)
    reads config, config.depth.Keys, closed
    requires i < |path| == |spine|
  {
    var n, f := path[i], spine[i];
    var last := i == |path| - 1;
    && n in config.depth && config.depth[n] == i && n !in closed
    && n.name == f.name && n.content == Agg(f.kind)
    && |n.elements| == |f.done| + (if last then 0 else 1)
    && (last && loose != null ==> f.done != [])
    && (forall j | 0 <= j < |f.done| - (if last && loose != null then 1 else 0) ::
          Rep(n.elements[j], f.done[j], closed))
    && (!last ==> n.elements[|f.done|] == path[i + 1])
  }

  /** The last element of the innermost open setting: it may still get another value. */
  ghost predicate LooseOk(config: Config, path: seq<Node>, spine: seq<Frame>, loose: Node, closed: set<Node>)
    reads config, config.depth.Keys
    requires path != [] && |path| == |spine|
  {
    var n, f := path[|path| - 1], spine[|spine| - 1];
    && loose in config.depth && loose !in closed && loose !in path
    && n in config.depth && f.done != [] && |n.elements| == |f.done| && n.elements[|f.done| - 1] == loose
    && loose.name == f.done[|f.done| - 1].name && loose.content == Plain(f.done[|f.done| - 1].value)
    && !f.done[|f.done| - 1].value.IsAggregate()
  }

  /** The open settings with the finished ones in `closed` below them are the frames of the
      spine; there is at most one setting, `loose`, that is neither. */
  ghost predicate Mirror(config: Config, path: seq<Node>, spine: seq<Frame>, loose: Node?, closed: set<Node>)
    reads config, config.depth.Keys, closed
  {
    && path != [] && |path| == |spine| && path[0] == config.root && spine[0].name == None && closed <= config.depth.Keys
    && (forall i | 0 <= i < |path| :: FrameOk(config, path, spine, loose, closed, i))
    && (loose != null ==> LooseOk(config, path, spine, loose, closed))
  }

  lemma PathApart(config: Config, path: seq<Node>, spine: seq<Frame>, loose: Node?, closed: set<Node>, i: nat, j: nat)
    requires Mirror(config, path, spine, loose, closed) && i < |path| && j < |path| && i != j
    ensures path[i] != path[j]
  {
    assert FrameOk(config, path, spine, loose, closed, i) && FrameOk(config, path, spine, loose, closed, j);
  }

  // ----- without a change -----

  /** The loose setting is finished. */
  lemma Settled(config: Config, path: seq<Node>, spine: seq<Frame>, loose: Node, closed: set<Node>)
    requires Mirror(config, path, spine, loose, closed)
    ensures Mirror(config, path, spine, null, closed + {loose})
  {
    forall i | 0 <= i < |path| ensures FrameOk(config, path, spine, null, closed + {loose}, i) {
      assert FrameOk(config, path, spine, loose, closed, i);
      var n, f := path[i], spine[i];
      forall j | 0 <= j < |f.done| ensures Rep(n.elements[j], f.done[j], closed + {loose}) {
        if i == |path| - 1 && j == |f.done| - 1 {
          assert n.elements[j] == loose;
        } else {
          RepGrows(n.elements[j], f.done[j], closed, closed + {loose});
        }
      }
    }
  }

  /** What closing the innermost open setting makes of the spine. */
  function ClosedSpine(spine: seq<Frame>): seq<Frame>
    requires |spine| > 1
  {
    var outer, f := spine[..|spine| - 1], spine[|spine| - 1];
    WithDone(outer, TopDone(outer) + [Setting(f.name, Aggregate(f.kind, f.done))])
  }

  /** The innermost open setting is finished with all that is below it. */
  lemma ClosedMirror(config: Config, path: seq<Node>, spine: seq<Frame>, closed: set<Node>)
    requires Mirror(config, path, spine, null, closed) && |path| > 1
    ensures Mirror(config, path[..|path| - 1], ClosedSpine(spine), null, closed + {path[|path| - 1]})
  {
    var k := |path| - 1;
    var inner, f, closed' := path[k], spine[k], closed + {path[k]};
    assert FrameOk(config, path, spine, null, closed, k);
    forall j | 0 <= j < |f.done| ensures Rep(inner.elements[j], f.done[j], closed') {
      RepGrows(inner.elements[j], f.done[j], closed, closed');
    }
    assert Rep(inner, Setting(f.name, Aggregate(f.kind, f.done)), closed');
    forall i | 0 <= i < k ensures FrameOk(config, path[..k], ClosedSpine(spine), null, closed', i) {
      ClosedFrame(config, path, spine, closed, i);
    }
  }

  lemma ClosedFrame(config: Config, path: seq<Node>, spine: seq<Frame>, closed: set<Node>, i: nat)
    requires Mirror(config, path, spine, null, closed) && i < |path| - 1
    requires var k := |path| - 1;
      Rep(path[k], Setting(spine[k].name, Aggregate(spine[k].kind, spine[k].done)), closed + {path[k]})
    ensures FrameOk(config, path[..|path| - 1], ClosedSpine(spine), null, closed + {path[|path| - 1]}, i)
  {
    var k := |path| - 1;
    var n, f := path[i], ClosedSpine(spine)[i];
    var closed' := closed + {path[k]};
    assert FrameOk(config, path, spine, null, closed, i);
    PathApart(config, path, spine, null, closed, i, k);
    forall j | 0 <= j < |f.done| ensures Rep(n.elements[j], f.done[j], closed') {
      if j < |spine[i].done| {
        assert f.done[j] == spine[i].done[j];
        RepGrows(n.elements[j], f.done[j], closed, closed');
      }
    }
  }

  // ----- after a change of the heap -----

  /** Nothing has happened to finished settings and to open ones but the innermost. */
  twostate predicate OnlyTop(config: Config, new path: seq<Node>, new closed: set<Node>)
    reads *
  {
    && path != [] && config.root == old(config.root)
    && (forall i | 0 <= i < |path| :: path[i] in old(config.depth)) && closed <= old(config.depth.Keys)
    && (forall n | n in old(config.depth) :: n in config.depth && config.depth[n] == old(config.depth)[n])
    && (forall n | n in closed :: unchanged(n))
    && (forall i | 0 <= i < |path| - 1 :: unchanged(path[i]))
  }

  /** The frames below the innermost are as before, whatever becomes of that. */
  twostate lemma LowerFrame(config: Config, new path: seq<Node>, new spine: seq<Frame>, new loose: Node?,
                            new closed: set<Node>, new path': seq<Node>, new spine': seq<Frame>,
                            new loose': Node?, new i: nat)
    requires (forall i | 0 <= i < |path| :: path[i] in old(config.depth)) && closed <= old(config.depth.Keys)
    requires loose == null || loose in old(config.depth)
    requires old(Mirror(config, path, spine, loose, closed)) && OnlyTop(config, path, closed)
    requires i < |path| - 1 && |path| <= |path'| == |spine'|
    requires path'[..|path|] == path && spine'[i] == spine[i]
    ensures FrameOk(config, path', spine', loose', closed, i)
  {
    assert old(FrameOk(config, path, spine, loose, closed, i));
    assert path'[i] == path'[..|path|][i] && path'[i + 1] == path'[..|path|][i + 1];
    var n, f := path[i], spine[i];
    forall j | 0 <= j < |f.done| ensures Rep(n.elements[j], f.done[j], closed) {
      assert old(Rep(n.elements[j], f.done[j], closed));
    }
  }

  /** The innermost open setting has got one more element, which may become an open one. */
  twostate lemma GrownMirror(config: Config, new path: seq<Node>, new spine: seq<Frame>, new closed: set<Node>,
      new child: Node)
    requires (forall i | 0 <= i < |path| :: path[i] in old(config.depth)) && closed <= old(config.depth.Keys)
    requires old(Mirror(config, path, spine, null, closed)) && fresh(child)
    requires config.Grown(path[|path| - 1], child)
    ensures child.content.Plain? ==>
              Mirror(config, path, WithDone(spine, TopDone(spine) + [Setting(child.name, child.content.value)]),
                     child, closed)
    ensures child.content.Agg? ==>
              Mirror(config, path + [child], spine + [Frame(child.name, child.content.kind, [])], null, closed)
  {
    var k := |path| - 1;
    assert old(FrameOk(config, path, spine, null, closed, k));
    assert forall i | 0 <= i < k :: path[i] != path[k] by {
      forall i | 0 <= i < k ensures path[i] != path[k] {
        assert old(FrameOk(config, path, spine, null, closed, i));
      }
    }
    assert OnlyTop(config, path, closed);
    if child.content.Plain? {
      GrownByLoose(config, path, spine, closed, child);
    } else {
      GrownByOpen(config, path, spine, closed, child);
    }
  }

  twostate lemma GrownByLoose(config: Config, new path: seq<Node>, new spine: seq<Frame>, new closed: set<Node>,
      new child: Node)
    requires (forall i | 0 <= i < |path| :: path[i] in old(config.depth)) && closed <= old(config.depth.Keys)
    requires old(Mirror(config, path, spine, null, closed)) && fresh(child) && OnlyTop(config, path, closed)
    requires config.Grown(path[|path| - 1], child) && child.content.Plain?
    ensures Mirror(config, path, WithDone(spine, TopDone(spine) + [Setting(child.name, child.content.value)]),
                   child, closed)
  {
    var k := |path| - 1;
    var spine' := WithDone(spine, TopDone(spine) + [Setting(child.name, child.content.value)]);
    assert old(FrameOk(config, path, spine, null, closed, k));
    forall i | 0 <= i < |path| ensures FrameOk(config, path, spine', child, closed, i) {
      if i < k {
        assert path[..|path|] == path;
        LowerFrame(config, path, spine, null, closed, path, spine', child, i);
      } else {
        forall j | 0 <= j < |spine[k].done| ensures Rep(path[k].elements[j], spine'[k].done[j], closed) {
          assert old(Rep(path[k].elements[j], spine[k].done[j], closed));
          assert path[k].elements[j] == old(path[k].elements)[j];
        }
      }
    }
    assert forall n | n in path :: old(n in config.depth) by {
      forall i | 0 <= i < |path| ensures path[i] in old(config.depth) {
        assert old(FrameOk(config, path, spine, null, closed, i));
      }
    }
  }

  twostate lemma GrownByOpen(config: Config, new path: seq<Node>, new spine: seq<Frame>, new closed: set<Node>,
      new child: Node)
    requires (forall i | 0 <= i < |path| :: path[i] in old(config.depth)) && closed <= old(config.depth.Keys)
    requires old(Mirror(config, path, spine, null, closed)) && fresh(child) && OnlyTop(config, path, closed)
    requires config.Grown(path[|path| - 1], child) && child.content.Agg?
    ensures Mirror(config, path + [child], spine + [Frame(child.name, child.content.kind, [])], null, closed)
  {
    var k := |path| - 1;
    var path', spine' := path + [child], spine + [Frame(child.name, child.content.kind, [])];
    assert old(FrameOk(config, path, spine, null, closed, k));
    forall i | 0 <= i < |path'| ensures FrameOk(config, path', spine', null, closed, i) {
      if i < k {
        assert path'[..|path|] == path;
        LowerFrame(config, path, spine, null, closed, path', spine', null, i);
      } else if i == k {
        forall j | 0 <= j < |spine[k].done| ensures Rep(path[k].elements[j], spine[k].done[j], closed) {
          assert old(Rep(path[k].elements[j], spine[k].done[j], closed));
          assert path[k].elements[j] == old(path[k].elements)[j];
        }
      }
    }
  }

  /** The loose setting has got other content, with which it may be an open one. */
  twostate lemma ChangedMirror(config: Config, new path: seq<Node>, new spine: seq<Frame>, new loose: Node,
      new closed: set<Node>)
    requires (forall i | 0 <= i < |path| :: path[i] in old(config.depth)) && closed <= old(config.depth.Keys)
    requires loose in old(config.depth)
    requires old(config.Valid()) && old(Mirror(config, path, spine, loose, closed)) && config.Changed(loose)
    ensures TopDone(spine) != []
    ensures var done := TopDone(spine); var last := |done| - 1;
      && (loose.content.Plain? ==>
            Mirror(config, path, WithDone(spine, done[..last] + [Setting(done[last].name, loose.content.value)]),
                   loose, closed))
      && (loose.content.Agg? ==>
            Mirror(config, path + [loose],
                   WithDone(spine, done[..last]) + [Frame(done[last].name, loose.content.kind, [])], null, closed))
  {
    assert OnlyTop(config, path, closed);
    if loose.content.Plain? {
      ChangedToPlain(config, path, spine, loose, closed);
    } else {
      ChangedToOpen(config, path, spine, loose, closed);
    }
  }

  twostate lemma ChangedToPlain(config: Config, new path: seq<Node>, new spine: seq<Frame>, new loose: Node,
      new closed: set<Node>)
    requires (forall i | 0 <= i < |path| :: path[i] in old(config.depth)) && closed <= old(config.depth.Keys)
    requires loose in old(config.depth)
    requires old(Mirror(config, path, spine, loose, closed)) && OnlyTop(config, path, closed)
    requires config.Changed(loose) && loose.content.Plain?
    ensures TopDone(spine) != []
    ensures var done := TopDone(spine); var last := |done| - 1;
      Mirror(config, path, WithDone(spine, done[..last] + [Setting(done[last].name, loose.content.value)]),
             loose, closed)
  {
    var k := |path| - 1;
    var done := TopDone(spine);
    var last := |done| - 1;
    var spine' := WithDone(spine, done[..last] + [Setting(done[last].name, loose.content.value)]);
    assert old(FrameOk(config, path, spine, loose, closed, k));
    forall i | 0 <= i < |path| ensures FrameOk(config, path, spine', loose, closed, i) {
      if i < k {
        assert path[..|path|] == path;
        LowerFrame(config, path, spine, loose, closed, path, spine', loose, i);
      } else {
        forall j | 0 <= j < last ensures Rep(path[k].elements[j], spine'[k].done[j], closed) {
          assert old(Rep(path[k].elements[j], spine[k].done[j], closed));
        }
      }
    }
  }

  twostate lemma ChangedToOpen(config: Config, new path: seq<Node>, new spine: seq<Frame>, new loose: Node,
      new closed: set<Node>)
    requires (forall i | 0 <= i < |path| :: path[i] in old(config.depth)) && closed <= old(config.depth.Keys)
    requires loose in old(config.depth)
    requires old(config.Valid()) && old(Mirror(config, path, spine, loose, closed)) && OnlyTop(config, path, closed)
    requires config.Changed(loose) && loose.content.Agg?
    ensures TopDone(spine) != []
    ensures var done := TopDone(spine); var last := |done| - 1;
      Mirror(config, path + [loose], WithDone(spine, done[..last]) + [Frame(done[last].name, loose.content.kind, [])],
             null, closed)
  {
    var k := |path| - 1;
    var done := TopDone(spine);
    var last := |done| - 1;
    var path' := path + [loose];
    var spine' := WithDone(spine, done[..last]) + [Frame(done[last].name, loose.content.kind, [])];
    assert old(FrameOk(config, path, spine, loose, closed, k));
    assert old(config.Linked(loose)) && old(config.Elements(path[k]));
    assert old(config.Held(path[k], path[k].elements[last]));
    forall i | 0 <= i < |path'| ensures FrameOk(config, path', spine', null, closed, i) {
      if i < k {
        assert path'[..|path|] == path;
        LowerFrame(config, path, spine, loose, closed, path', spine', null, i);
      } else if i == k {
        forall j | 0 <= j < last ensures Rep(path[k].elements[j], spine'[k].done[j], closed) {
          assert old(Rep(path[k].elements[j], spine[k].done[j], closed));
        }
      }
    }
  }

  // ----- names and types of the innermost open setting -----

  /** The elements have the names and types of the children that they stand for. */
  lemma TopElement(config: Config, path: seq<Node>, spine: seq<Frame>, loose: Node?, closed: set<Node>, j: nat)
    requires Mirror(config, path, spine, loose, closed) && j < |TopDone(spine)|
    ensures var n, s := path[|path| - 1], TopDone(spine)[j];
      && |n.elements| == |TopDone(spine)| && n.elements[j].name == s.name
      && TagOf(n.elements[j].content) == TagOfValue(s.value)
  {
    var k := |path| - 1;
    assert FrameOk(config, path, spine, loose, closed, k);
    if loose == null || j < |TopDone(spine)| - 1 {
      assert Rep(path[k].elements[j], spine[k].done[j], closed);
      RepTag(path[k].elements[j], spine[k].done[j], closed);
    }
  }

  lemma SameNames(config: Config, path: seq<Node>, spine: seq<Frame>, loose: Node?, closed: set<Node>, name: string)
    requires Mirror(config, path, spine, loose, closed)
    ensures config.HasNamed(path[|path| - 1], name) <==> HasMember(TopDone(spine), name)
  {
    var n, done := path[|path| - 1], TopDone(spine);
    assert FrameOk(config, path, spine, loose, closed, |path| - 1);
    if i :| 0 <= i < |n.elements| && Named(n.elements[i], name) {
      TopElement(config, path, spine, loose, closed, i);
      assert done[i].name.Some?;
    }
    if i :| 0 <= i < |done| && done[i].name.Some? && Segment(done[i].name.value) == Segment(name) {
      TopElement(config, path, spine, loose, closed, i);
      assert Named(n.elements[i], name);
    }
  }
}
