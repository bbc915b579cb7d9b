/** `SolutionGenerator.AddProjectReferencesAsync`: give Domain and Application a
    reference to SharedKernel when it is selected, gate on the dependency check, then
    write a `<ProjectReference>` into each selected project for each selected layer it
    depends on. */
module ProjectReferences {
  import opened Outcomes
  import opened Models
  import opened Text
  import opened Environment
  import opened InputValidator
  import opened DependencyValidator
  import opened SolutionGenerator
  import opened LayerConfiguration

  // ---------------------------------------------------------------------------
  // SharedKernel references
  // ---------------------------------------------------------------------------

  /** Look up `layer` (throwing when it is missing) and append SharedKernel to its
      dependencies unless it is already there. */
  function AddSharedKernelTo(defs: LayerTable, layer: LayerType): Outcome<LayerTable> {
    if layer !in defs then Threw(KeyNotFound)
    else if SharedKernel in defs[layer].dependencies then Returned(defs)
    else Returned(defs[layer := defs[layer].(dependencies := defs[layer].dependencies + [SharedKernel])])
  }

  /** The first step of `AddProjectReferencesAsync`: with SharedKernel selected, the
      selected ones of Domain and Application are given a SharedKernel reference.
      Without SharedKernel selected nothing changes; a throw is always a missing key,
      and a result keeps the table's keys. */
  function InjectSharedKernel(selected: seq<LayerType>, defs: LayerTable): (r: Outcome<LayerTable>)
    ensures SharedKernel !in selected ==> r == Returned(defs)
    ensures r.Threw? ==> r.exception == KeyNotFound
    ensures r.Returned? ==> r.value.Keys == defs.Keys
  {
    if SharedKernel !in selected then Returned(defs)
    else
      var afterDomain := if Domain in selected then AddSharedKernelTo(defs, Domain) else Returned(defs);
      if afterDomain.Threw? then afterDomain
      else if Application in selected then AddSharedKernelTo(afterDomain.value, Application)
      else afterDomain
  }

  /** The layers that receive a SharedKernel reference. */
  predicate GetsSharedKernel(selected: seq<LayerType>, layer: LayerType) {
    SharedKernel in selected && layer in selected && (layer == Domain || layer == Application)
  }

  /** What the injection does: it throws exactly when a layer it must update has no
      definition; otherwise the keys stay, every definition keeps all but its
      dependencies, the updated layers end up listing SharedKernel (appended once,
      only when it was missing) and every other list is untouched. */
  lemma InjectSharedKernelEffect(selected: seq<LayerType>, defs: LayerTable)
    ensures InjectSharedKernel(selected, defs).Threw? <==>
      exists l :: GetsSharedKernel(selected, l) && l !in defs
    ensures InjectSharedKernel(selected, defs).Threw? ==> InjectSharedKernel(selected, defs).exception == KeyNotFound
    ensures InjectSharedKernel(selected, defs).Returned? ==>
      var t := InjectSharedKernel(selected, defs).value;
      && t.Keys == defs.Keys
      && forall l :: l in t ==>
        && t[l].(dependencies := defs[l].dependencies) == defs[l]
        && t[l].dependencies == (if GetsSharedKernel(selected, l) && SharedKernel !in defs[l].dependencies
                                 then defs[l].dependencies + [SharedKernel] else defs[l].dependencies)
        && (GetsSharedKernel(selected, l) ==> SharedKernel in t[l].dependencies)
  {
    if InjectSharedKernel(selected, defs).Threw? {
      if SharedKernel in selected && Domain in selected && Domain !in defs {
        assert GetsSharedKernel(selected, Domain);
      } else {
        assert GetsSharedKernel(selected, Application);
      }
    }
  }

  /** Running the injection on its own result changes nothing. */
  lemma InjectSharedKernelIdempotent(selected: seq<LayerType>, defs: LayerTable)
    requires InjectSharedKernel(selected, defs).Returned?
    ensures InjectSharedKernel(selected, InjectSharedKernel(selected, defs).value) == InjectSharedKernel(selected, defs)
  {
    var t := InjectSharedKernel(selected, defs).value;
    InjectSharedKernelEffect(selected, defs);
    InjectSharedKernelEffect(selected, t);
    var u := InjectSharedKernel(selected, t).value;
    forall l | l in u ensures u[l] == t[l] {
      assert u[l].(dependencies := t[l].dependencies) == t[l];
    }
  }

  /** The edges the injection adds are allowed ones, and they stay inside the table
      when SharedKernel has a definition; so a table that passes the rules still
      passes them afterwards. */
  lemma InjectSharedKernelKeepsRules(selected: seq<LayerType>, defs: LayerTable)
    requires InjectSharedKernel(selected, defs).Returned?
    ensures AllEdgesAllowed(defs) ==> AllEdgesAllowed(InjectSharedKernel(selected, defs).value)
    ensures Closed(defs) && SharedKernel in defs ==> Closed(InjectSharedKernel(selected, defs).value)
    ensures HasRequiredKeys(defs) ==> HasRequiredKeys(InjectSharedKernel(selected, defs).value)
  {
    InjectSharedKernelEffect(selected, defs);
    var t := InjectSharedKernel(selected, defs).value;
    forall a, b | a in t && b in t[a].dependencies
      ensures b in defs[a].dependencies || (b == SharedKernel && GetsSharedKernel(selected, a))
    {
    }
  }

  /** As written, the built-in table has no SharedKernel entry, so selecting
      SharedKernel cannot work: its definition cannot be looked up, and once Domain has
      been given its SharedKernel reference the table names a layer it does not hold,
      so the table fails the condition the dependency check needs to pass. */
  lemma SharedKernelSelectionFails(selected: seq<LayerType>)
    requires SharedKernel in selected && Domain in selected
    ensures SharedKernel !in GetLayerDefinitions()
    ensures InjectSharedKernel(selected, GetLayerDefinitions()).Returned?
    ensures !Closed(InjectSharedKernel(selected, GetLayerDefinitions()).value)
    ensures
      var t := InjectSharedKernel(selected, GetLayerDefinitions()).value;
      !(HasRequiredKeys(t) && Closed(t) && AllEdgesAllowed(t))
  {
    InjectIntoTableWithoutSharedKernel(selected, GetLayerDefinitions());
  }

  /** The same for any table that holds Domain and Application but no SharedKernel. */
  lemma InjectIntoTableWithoutSharedKernel(selected: seq<LayerType>, defs: LayerTable)
    requires SharedKernel in selected && Domain in selected
    requires Domain in defs && Application in defs && SharedKernel !in defs
    ensures InjectSharedKernel(selected, defs).Returned?
    ensures !Closed(InjectSharedKernel(selected, defs).value)
  {
    var t := InjectSharedKernel(selected, defs).value;
    InjectSharedKernelEffect(selected, defs);
    assert GetsSharedKernel(selected, Domain);
    assert SharedKernel in t[Domain].dependencies && SharedKernel !in t;
  }

  /** Hence, as written, `AddProjectReferencesAsync` on the built-in table throws
      whenever SharedKernel and Domain are both selected, before writing any file. */
  method SharedKernelSelectionThrows(fs: FileSystem, paths: PathModel, config: SolutionConfiguration,
                                     projectPaths: ProjectPaths)
    returns (r: Outcome<()>, fs': FileSystem)
    requires SharedKernel in config.selectedLayers && Domain in config.selectedLayers
    ensures r.Threw? && fs' == fs
  {
    SharedKernelSelectionFails(config.selectedLayers);
    var defs';
    r, fs', defs' := AddProjectReferences(fs, paths, config, projectPaths, GetLayerDefinitions());
  }

  /** With the completed table, every selection gets through the SharedKernel step
      and the dependency check: the injected table keeps the required keys, names
      only its own keys, obeys every rule and has no cycle. */
  lemma SharedKernelSelectionPasses(selected: seq<LayerType>)
    ensures InjectSharedKernel(selected, GetLayerDefinitionsWithSharedKernel()).Returned?
    ensures
      var t := InjectSharedKernel(selected, GetLayerDefinitionsWithSharedKernel()).value;
      && HasRequiredKeys(t) && Closed(t) && AllEdgesAllowed(t) && !HasDirectedCycle(t)
      && RulesResult(t, false) == Success()
  {
    var d := GetLayerDefinitionsWithSharedKernel();
    LayerDefinitionsWithSharedKernelPassRules();
    InjectSharedKernelEffect(selected, d);
    InjectSharedKernelKeepsRules(selected, d);
    var t := InjectSharedKernel(selected, d).value;
    AllowedEdgesAreAcyclic(t);
    RulesResultIsValid(t, false);
  }

  // ---------------------------------------------------------------------------
  // Project files
  // ---------------------------------------------------------------------------

  const ProjectEnd := "</Project>"

  const TagOpen := "<ProjectReference Include=\""
  const TagClose := "\" />"
  const ItemGroupOpen := "  <ItemGroup>\r\n    "
  const ItemGroupClose := "\r\n  </ItemGroup>\r\n"

  /** The element whose presence means the reference is already there. */
  function ReferenceTag(path: string): string {
    TagOpen + path + TagClose
  }

  /** The item group written in front of `</Project>`. */
  function ReferenceBlock(path: string): string {
    ItemGroupOpen + ReferenceTag(path) + ItemGroupClose
  }

  /** One reference step on a project file's text: unless the tag is already there,
      every `</Project>` gets the item group in front of it. */
  function AddReference(content: string, path: string): string {
    if !Contains(content, ReferenceTag(path)) then Replace(content, ProjectEnd, ReferenceBlock(path) + ProjectEnd)
    else content
  }

  /** No `<` in a path. */
  predicate NoAngle(s: string) {
    forall k :: 0 <= k < |s| ==> s[k] != '<'
  }

  /** A reference step leaves a project file that ends its project holding the tag
      and still ending its project; a file without `</Project>` or with the tag
      already is left as it is. */
  lemma AddReferenceEffect(content: string, path: string)
    ensures Contains(content, ProjectEnd) ==>
      Contains(AddReference(content, path), ReferenceTag(path)) && Contains(AddReference(content, path), ProjectEnd)
    ensures !Contains(content, ProjectEnd) || Contains(content, ReferenceTag(path)) ==> AddReference(content, path) == content
  {
    var tag, block := ReferenceTag(path), ReferenceBlock(path);
    if !Contains(content, tag) {
      if Contains(content, ProjectEnd) {
        var r := Replace(content, ProjectEnd, block + ProjectEnd);
        ReplaceInserts(content, ProjectEnd, block + ProjectEnd);
        ContainsSelf(tag);
        ContainsInside(ItemGroupOpen, tag, ItemGroupClose, tag);
        ContainsExtends(block, ProjectEnd, tag);
        ContainsTrans(r, block + ProjectEnd, tag);
        ContainsSelf(ProjectEnd);
        ContainsInside(block, ProjectEnd, "", ProjectEnd);
        assert block + ProjectEnd + "" == block + ProjectEnd;
        ContainsTrans(r, block + ProjectEnd, ProjectEnd);
      } else {
        ReplaceAbsent(content, ProjectEnd, block + ProjectEnd);
      }
    }
  }

  /** Writing the same reference twice gives the text of writing it once. */
  lemma AddReferenceIdempotent(content: string, path: string)
    ensures AddReference(AddReference(content, path), path) == AddReference(content, path)
  {
    AddReferenceEffect(content, path);
    AddReferenceEffect(AddReference(content, path), path);
  }

  /** A tag is never split by the insertion, so a reference already written survives
      every later reference step. */
  lemma AddReferenceKeepsTag(content: string, path: string, other: string)
    requires NoAngle(other) && Contains(content, ReferenceTag(other))
    ensures Contains(AddReference(content, path), ReferenceTag(other))
  {
    if !Contains(content, ReferenceTag(path)) {
      var t := ReferenceTag(other);
      ReferenceTagUnanchored(other);
      var i :| 0 <= i <= |content| - |t| && OccursAt(content, t, i);
      ReplaceKeepsOccurrence(content, ProjectEnd, ReferenceBlock(path) + ProjectEnd, t, i);
    }
  }

  /** A tag for a path without `<` has its only `<` in front, so it cannot overlap
      `</Project>`. */
  lemma ReferenceTagUnanchored(path: string)
    requires NoAngle(path)
    ensures Unanchored(ReferenceTag(path), ProjectEnd)
  {
    var pre, post := TagOpen, TagClose;
    var t := ReferenceTag(path);
    assert NoAngle(pre[1..]) && NoAngle(post);
    NoAngleConcat(pre[1..], path, post);
    assert t[1..] == pre[1..] + path + post;
    forall k | 1 <= k < |t| ensures t[k] != '<' {
      assert t[k] == t[1..][k - 1];
    }
    UnanchoredByFirstCharacters(t, ProjectEnd, 1);
  }

  lemma NoAngleConcat(a: string, b: string, c: string)
    requires NoAngle(a) && NoAngle(b) && NoAngle(c)
    ensures NoAngle(a + b + c)
  {
    var s := a + b + c;
    forall k | 0 <= k < |s| ensures s[k] != '<' {
      if k < |a| {
        assert s[k] == a[k];
      } else if k < |a| + |b| {
        assert s[k] == b[k - |a|];
      } else {
        assert s[k] == c[k - |a| - |b|];
      }
    }
  }

  /** A path that can neither open an element nor close the attribute it is
      written into. */
  predicate PlainPath(s: string) {
    NoAngle(s) && Lacks(s, '"')
  }

  /** A tag for a path without `<` opens with its only `<` and ends with `>`. */
  lemma TagShape(path: string)
    requires NoAngle(path)
    ensures |ReferenceTag(path)| == |path| + 31
    ensures ReferenceTag(path)[0] == '<' && ReferenceTag(path)[1] == 'P' && ReferenceTag(path)[|path| + 30] == '>'
    ensures ReferenceTag(path)[27..27 + |path|] == path && ReferenceTag(path)[|path| + 27] == '"'
    ensures forall k :: 1 <= k < |ReferenceTag(path)| ==> ReferenceTag(path)[k] != '<'
  {
    var pre, post := TagOpen, TagClose;
    var t := ReferenceTag(path);
    assert NoAngle(pre[1..]) && NoAngle(post);
    NoAngleConcat(pre[1..], path, post);
    assert t[1..] == pre[1..] + path + post;
    forall k | 1 <= k < |t| ensures t[k] != '<' {
      assert t[k] == t[1..][k - 1];
    }
  }

  /** Where the fixed text in front of a block's path has its `<` characters. */
  lemma BlockHeadLayout()
    ensures var h := ItemGroupOpen + TagOpen;
      && |h| == 46 && h[0] == ' ' && h[1] == ' ' && h[2] == '<' && h[3] == 'I' && h[19] == '<' && h[19..] == TagOpen
      && forall k :: 20 <= k < 46 ==> h[k] != '<'
  {
    var h := ItemGroupOpen + TagOpen;
    assert forall k :: 1 <= k < 27 ==> TagOpen[k] != '<';
    assert forall k :: 19 <= k < 46 ==> h[k] == TagOpen[k - 19];
  }

  /** Where the fixed text after a block's path, up to `</Project>`, has its `<`
      and `>` characters. */
  lemma BlockTailLayout()
    ensures var w := TagClose + ItemGroupClose + ProjectEnd;
      && |w| == 32 && w[0] == '"' && w[8] == '<' && w[9] == '/' && w[22] == '<' && w[23] == '/'
      && (forall k :: 0 <= k < 8 ==> w[k] != '<')
      && (forall k :: 4 <= k < 8 ==> w[k] != '>')
      && (forall k :: 23 <= k < 32 ==> w[k] != '<')
  {
    var w := TagClose + ItemGroupClose + ProjectEnd;
    assert forall k :: 0 <= k < 4 ==> TagClose[k] != '<';
    assert forall k :: 0 <= k < 4 ==> ItemGroupClose[k] != '<' && ItemGroupClose[k] != '>';
    assert forall k :: 1 <= k < 10 ==> ProjectEnd[k] != '<';
    assert forall k :: 4 <= k < 22 ==> w[k] == ItemGroupClose[k - 4];
    assert forall k :: 22 <= k < 32 ==> w[k] == ProjectEnd[k - 22];
  }

  /** A reference block followed by `</Project>` is the fixed text in front of its
      path, the path, and the fixed text after it. */
  lemma BlockParts(q: string)
    ensures ReferenceBlock(q) + ProjectEnd == (ItemGroupOpen + TagOpen) + q + (TagClose + ItemGroupClose + ProjectEnd)
  {
  }

  /** Where a reference block followed by `</Project>` has its `<` characters, and
      what surrounds the path it names. */
  lemma BlockEndLayout(q: string)
    requires NoAngle(q)
    ensures var v, n := ReferenceBlock(q) + ProjectEnd, |q|;
      && |v| == n + 78
      && v[0] == ' ' && v[1] == ' ' && v[2] == '<' && v[3] == 'I' && v[19] == '<' && v[n + 54] == '<' && v[n + 55] == '/'
      && v[n + 68] == '<' && v[n + 69] == '/'
      && (forall k :: 20 <= k < n + 54 ==> v[k] != '<')
      && (forall k :: n + 69 <= k < n + 78 ==> v[k] != '<')
      && (forall k :: n + 50 <= k < n + 54 ==> v[k] != '>')
      && v[19..46] == TagOpen && v[46..46 + n] == q && v[46 + n] == '"'
  {
    var h, w := ItemGroupOpen + TagOpen, TagClose + ItemGroupClose + ProjectEnd;
    BlockParts(q);
    PartsLayout(h, q, w);
  }

  /** The layout facts for the fixed text around a path. */
  lemma PartsLayout(h: string, q: string, w: string)
    requires h == ItemGroupOpen + TagOpen && w == TagClose + ItemGroupClose + ProjectEnd
    requires NoAngle(q)
    ensures var v, n := h + q + w, |q|;
      && |v| == n + 78
      && v[0] == ' ' && v[1] == ' ' && v[2] == '<' && v[3] == 'I' && v[19] == '<' && v[n + 54] == '<' && v[n + 55] == '/'
      && v[n + 68] == '<' && v[n + 69] == '/'
      && (forall k :: 20 <= k < n + 54 ==> v[k] != '<')
      && (forall k :: n + 69 <= k < n + 78 ==> v[k] != '<')
      && (forall k :: n + 50 <= k < n + 54 ==> v[k] != '>')
      && v[19..46] == TagOpen && v[46..46 + n] == q && v[46 + n] == '"'
  {
    var v := h + q + w;
    BlockHeadLayout();
    BlockTailLayout();
    ConcatLayout(h, q, w);
    assert v[19..46] == h[19..];
    assert v[46..46 + |q|] == q;
  }

  /** The same, with any text after `</Project>`. */
  lemma BlockLayout(q: string, rest: string)
    requires NoAngle(q)
    ensures var u, n := ReferenceBlock(q) + ProjectEnd + rest, |q|;
      && |ReferenceBlock(q) + ProjectEnd| == n + 78
      && u[0] == ' ' && u[1] == ' ' && u[2] == '<' && u[3] == 'I' && u[19] == '<' && u[n + 54] == '<' && u[n + 55] == '/'
      && u[n + 68] == '<' && u[n + 69] == '/'
      && (forall k :: 20 <= k < n + 54 ==> u[k] != '<')
      && (forall k :: n + 69 <= k < n + 78 ==> u[k] != '<')
      && (forall k :: n + 50 <= k < n + 54 ==> u[k] != '>')
      && u[19..46] == TagOpen && u[46..46 + n] == q && u[46 + n] == '"'
  {
    var v := ReferenceBlock(q) + ProjectEnd;
    BlockEndLayout(q);
    assert forall k :: 0 <= k < |v| ==> (v + rest)[k] == v[k];
    assert (v + rest)[19..46] == v[19..46];
    assert (v + rest)[46..46 + |q|] == v[46..46 + |q|];
  }

  /** A tag (of a path without `<`) that starts inside a reference block starts
      where the block's own tag does. */
  lemma TagStartInBlock(q: string, path: string, rest: string, j: nat)
    requires NoAngle(q) && NoAngle(path)
    requires j < |ReferenceBlock(q) + ProjectEnd|
    requires OccursAt(ReferenceBlock(q) + ProjectEnd + rest, ReferenceTag(path), j)
    ensures j == 19
  {
    var u, t, n := ReferenceBlock(q) + ProjectEnd + rest, ReferenceTag(path), |q|;
    BlockLayout(q, rest);
    TagShape(path);
    assert forall k :: 0 <= k < |t| ==> u[j + k] == t[k];
    assert u[j] == '<' && u[j + 1] == 'P';
    assert forall p :: j < p < j + |t| ==> u[p] != '<' by {
      forall p | j < p < j + |t| ensures u[p] != '<' {
        assert u[p] == t[p - j];
      }
    }
    if j < 19 {
      assert false;
    } else if 19 < j < n + 54 {
      assert false;
    } else if j >= n + 54 {
      assert false;
    }
  }

  /** The only tag of a plain-path reference block that can start inside the block
      is the block's own. */
  lemma TagInBlock(q: string, path: string, rest: string, j: nat)
    requires PlainPath(q) && NoAngle(path)
    requires j < |ReferenceBlock(q) + ProjectEnd|
    requires OccursAt(ReferenceBlock(q) + ProjectEnd + rest, ReferenceTag(path), j)
    ensures path == q
  {
    var u, t, n := ReferenceBlock(q) + ProjectEnd + rest, ReferenceTag(path), |q|;
    TagStartInBlock(q, path, rest, j);
    BlockLayout(q, rest);
    TagShape(path);
    assert forall k :: 0 <= k < |t| ==> u[19 + k] == t[k];
    assert forall k :: 0 <= k < n ==> u[46 + k] == q[k];
    if |path| < n {
      assert false;
    } else if |path| == n {
      assert t[27..27 + n] == path;
      assert u[19..19 + |t|][27..27 + n] == u[46..46 + n];
    } else if |path| <= n + 4 {
      assert false;
    } else {
      assert false;
    }
  }

  /** A reference block opens with two spaces and then its first `<`. */
  lemma BlockStart(q: string, rest: string)
    ensures var u := ReferenceBlock(q) + ProjectEnd + rest;
      |ReferenceBlock(q) + ProjectEnd| == |q| + 78 && u[0] == ' ' && u[1] == ' ' && u[2] == '<'
  {
    BlockHeadLayout();
    BlockTailLayout();
    var u := ReferenceBlock(q) + ProjectEnd + rest;
    assert u == (ItemGroupOpen + TagOpen) + (q + (TagClose + ItemGroupClose + ProjectEnd) + rest);
  }

  /** An element with one `<`, at its start, and a closing `>`, found in a prefix
      without it followed by text that opens with two spaces and a `<`, starts after
      the prefix. */
  lemma ElementStartsAfter(pre: string, u: string, t: string, i: nat)
    requires |t| > 0 && t[0] == '<' && t[|t| - 1] == '>' && forall k :: 1 <= k < |t| ==> t[k] != '<'
    requires |u| >= 3 && u[0] == ' ' && u[1] == ' ' && u[2] == '<'
    requires !Contains(pre, t) && OccursAt(pre + u, t, i)
    ensures |pre| <= i
  {
    var r, m := pre + u, |pre|;
    assert forall k :: 0 <= k < |t| ==> r[i + k] == t[k];
    assert forall p :: i < p < i + |t| ==> r[p] != '<' by {
      forall p | i < p < i + |t| ensures r[p] != '<' {
        assert r[p] == t[p - i];
      }
    }
    assert r[i + |t| - 1] == '>';
    assert r[m] == ' ' && r[m + 1] == ' ' && r[m + 2] == '<';
    OccursInFront(pre, u, t, i);
    if i + |t| <= m {
      assert false;
    } else if i < m {
      assert false;
    }
  }

  /** Putting a plain-path block in front of every `</Project>` creates no tag (of a
      path without `<`) but the block's own. */
  lemma ReplaceWritesOnlyItsTag(s: string, q: string, path: string)
    requires PlainPath(q) && NoAngle(path) && !Contains(s, ReferenceTag(path))
    requires Contains(Replace(s, ProjectEnd, ReferenceBlock(q) + ProjectEnd), ReferenceTag(path))
    ensures path == q
  {
    var x, t := ReferenceBlock(q) + ProjectEnd, ReferenceTag(path);
    TagShape(path);
    forall pre, tail, i | !Contains(pre, t) && OccursAt(pre + (x + tail), t, i) ensures |pre| <= i {
      BlockStart(q, tail);
      ElementStartsAfter(pre, x + tail, t, i);
    }
    ReplaceNewOccurrence(s, ProjectEnd, x, t);
    var tail, j :| 0 <= j < |x| && OccursAt(x + tail, t, j);
    TagInBlock(q, path, tail, j);
  }

  /** A reference step writes no tag but its own: a tag (of a path without `<`) that
      the old text lacks and the new text holds is the one for the written path, as
      long as that path is plain. */
  lemma AddReferenceWritesOnlyItsTag(content: string, q: string, path: string)
    requires PlainPath(q) && NoAngle(path)
    requires !Contains(content, ReferenceTag(path)) && Contains(AddReference(content, q), ReferenceTag(path))
    ensures path == q
  {
    if Contains(content, ReferenceTag(q)) {
      assert false;
    }
    ReplaceWritesOnlyItsTag(content, q, path);
  }

  /** Every reference tag (of a path without `<`) a file held is still there. */
  ghost predicate KeepsReferences(fs: FileSystem, fs': FileSystem) {
    forall p, path :: p in fs && NoAngle(path) && Contains(fs[p], ReferenceTag(path)) ==>
      p in fs' && Contains(fs'[p], ReferenceTag(path))
  }

  /** Every file that ended its project still does. */
  ghost predicate KeepsProjectEnd(fs: FileSystem, fs': FileSystem) {
    forall p :: p in fs && Contains(fs[p], ProjectEnd) ==> p in fs' && Contains(fs'[p], ProjectEnd)
  }

  /** Keeping references and project ends composes over two changes. */
  lemma KeepsCompose(fs0: FileSystem, fs1: FileSystem, fs2: FileSystem)
    requires KeepsReferences(fs0, fs1) && KeepsProjectEnd(fs0, fs1)
    requires KeepsReferences(fs1, fs2) && KeepsProjectEnd(fs1, fs2)
    ensures KeepsReferences(fs0, fs2) && KeepsProjectEnd(fs0, fs2)
  {
    forall p, path | p in fs0 && NoAngle(path) && Contains(fs0[p], ReferenceTag(path))
      ensures p in fs2 && Contains(fs2[p], ReferenceTag(path))
    {
      assert p in fs1 && Contains(fs1[p], ReferenceTag(path));
    }
    forall p | p in fs0 && Contains(fs0[p], ProjectEnd) ensures p in fs2 && Contains(fs2[p], ProjectEnd) {
      assert p in fs1 && Contains(fs1[p], ProjectEnd);
    }
  }

  /** One reference step on one file keeps every other tag and the project end. */
  lemma WriteReferenceKeeps(fs: FileSystem, file: string, path: string)
    requires file in fs
    ensures KeepsReferences(fs, fs[file := AddReference(fs[file], path)])
    ensures KeepsProjectEnd(fs, fs[file := AddReference(fs[file], path)])
  {
    var fs' := fs[file := AddReference(fs[file], path)];
    forall p, other | p in fs && NoAngle(other) && Contains(fs[p], ReferenceTag(other))
      ensures p in fs' && Contains(fs'[p], ReferenceTag(other))
    {
      if p == file {
        AddReferenceKeepsTag(fs[file], path, other);
      }
    }
    AddReferenceEffect(fs[file], path);
  }

  /** `{BaseNamespace}.{layer}`. */
  function ProjectName(config: SolutionConfiguration, layer: LayerType): string {
    config.baseNamespace + "." + LayerName(layer)
  }

  /** `Path.Combine(projectPath, $"{projectName}.csproj")`. */
  function ProjectFile(paths: PathModel, config: SolutionConfiguration, projectPath: string, layer: LayerType): string {
    paths.combine(projectPath, ProjectName(config, layer) + ".csproj")
  }

  /** The dependency's project file relative to the referencing project's directory,
      with forward slashes. */
  function ReferencePath(paths: PathModel, config: SolutionConfiguration, projectPath: string,
                         dependencyPath: string, dependency: LayerType): string {
    NormalizeSeparators(paths.relative(projectPath, ProjectFile(paths, config, dependencyPath, dependency)))
  }

  /** `layer`'s project file, present from the start, holds the reference to
      `dependency`'s project whenever it ended its project to begin with and the
      relative path has no `<`. */
  ghost predicate Referenced(fs0: FileSystem, fs: FileSystem, paths: PathModel, config: SolutionConfiguration,
                             projectPaths: ProjectPaths, layer: LayerType, dependency: LayerType) {
    && Lookup(projectPaths, layer).Returned?
    && Lookup(projectPaths, dependency).Returned?
    && HoldsReference(fs0, fs, ProjectFile(paths, config, Lookup(projectPaths, layer).value, layer),
         ReferencePath(paths, config, Lookup(projectPaths, layer).value, Lookup(projectPaths, dependency).value, dependency))
  }

  /** `file`, present from the start, holds the reference to `path` whenever it
      ended its project to begin with and the path has no `<`. */
  ghost predicate HoldsReference(fs0: FileSystem, fs: FileSystem, file: string, path: string) {
    && file in fs0 && file in fs
    && (Contains(fs0[file], ProjectEnd) && NoAngle(path) ==> Contains(fs[file], ReferenceTag(path)))
  }

  /** A written reference survives a change that keeps every reference. */
  lemma HoldsReferenceKept(fs0: FileSystem, fs: FileSystem, fs': FileSystem, file: string, path: string)
    requires HoldsReference(fs0, fs, file, path) && KeepsReferences(fs, fs')
    requires fs'.Keys == fs.Keys
    ensures HoldsReference(fs0, fs', file, path)
  {
    if Contains(fs0[file], ProjectEnd) && NoAngle(path) {
      assert Contains(fs[file], ReferenceTag(path));
    }
  }

  /** `p` is the project file of a selected layer. */
  ghost predicate IsSelectedProjectFile(paths: PathModel, config: SolutionConfiguration, projectPaths: ProjectPaths, p: string) {
    exists l :: l in config.selectedLayers && Lookup(projectPaths, l).Returned? &&
      p == ProjectFile(paths, config, Lookup(projectPaths, l).value, l)
  }

  // ---------------------------------------------------------------------------
  // Messages
  // ---------------------------------------------------------------------------

  const RuleViolationPrefix := "Dependency rule violation detected:\n"
  const Critical := "\U{274C} CRITICAL: "
  const SharedKernelCritical := Critical + "SharedKernel layer must not have any dependencies. This violates DDD principles."

  function DomainCritical(found: seq<LayerType>): string {
    Critical + "Domain layer can only depend on SharedKernel, but found: " + Join(", ", LayerNames(found))
  }

  function InvalidDependencyCritical(layer: LayerType, dependency: LayerType): string {
    Critical + "Invalid dependency detected: " + LayerName(layer) + " \U{2192} " + LayerName(dependency)
      + ". This violates Clean Architecture principles."
  }

  /** The ways the step can fail once the dependency check has passed: a missing
      definition or project path, or a missing project file. */
  predicate LookupFailure(e: Exception) {
    e == KeyNotFound || e.FileNotFound?
  }

  // ---------------------------------------------------------------------------
  // What the step does to the file system
  // ---------------------------------------------------------------------------

  /** The inner loop over one layer's dependencies, as a value: a reference the rules
      forbid throws, an unselected dependency is skipped, a dependency without a
      project path or a project file that is missing throws, and otherwise the
      layer's project file takes one reference step. Writes made before a throw
      stay. */
  function DependencySteps(fs: FileSystem, paths: PathModel, config: SolutionConfiguration,
                           projectPaths: ProjectPaths, layer: LayerType, projectPath: string,
                           deps: seq<LayerType>): (r: (Outcome<()>, FileSystem))
    ensures r.1.Keys == fs.Keys
    decreases |deps|
  {
    if deps == [] then (Returned(()), fs)
    else
      var d, file := deps[0], ProjectFile(paths, config, projectPath, layer);
      if !IsValidDependency(layer, d) then (Threw(InvalidOperation(InvalidDependencyCritical(layer, d))), fs)
      else if d !in config.selectedLayers then DependencySteps(fs, paths, config, projectPaths, layer, projectPath, deps[1..])
      else if Lookup(projectPaths, d).Threw? then (Threw(KeyNotFound), fs)
      else if file !in fs then (Threw(FileNotFound(file)), fs)
      else
        var path := ReferencePath(paths, config, projectPath, Lookup(projectPaths, d).value, d);
        DependencySteps(fs[file := AddReference(fs[file], path)], paths, config, projectPaths, layer, projectPath, deps[1..])
  }

  /** The body of the loop over the selected layers, as a value: look up the layer's
      definition and project path, run the two CRITICAL checks, then the inner loop. */
  function LayerStep(fs: FileSystem, paths: PathModel, config: SolutionConfiguration,
                     projectPaths: ProjectPaths, defs: LayerTable, layer: LayerType): (r: (Outcome<()>, FileSystem))
    ensures r.1.Keys == fs.Keys
  {
    if layer !in defs || Lookup(projectPaths, layer).Threw? then (Threw(KeyNotFound), fs)
    else
      var deps := defs[layer].dependencies;
      if layer == SharedKernel && |deps| > 0 then (Threw(InvalidOperation(SharedKernelCritical)), fs)
      else if layer == Domain && |deps| > 0 && ReportedDependencies(Domain, deps) != [] then
        (Threw(InvalidOperation(DomainCritical(ReportedDependencies(Domain, deps)))), fs)
      else DependencySteps(fs, paths, config, projectPaths, layer, Lookup(projectPaths, layer).value, deps)
  }

  /** The loop over `layers`, as a value: one layer step after another, stopping at
      the first throw with the writes made so far. */
  function SelectedSteps(fs: FileSystem, paths: PathModel, config: SolutionConfiguration,
                         projectPaths: ProjectPaths, defs: LayerTable, layers: seq<LayerType>): (r: (Outcome<()>, FileSystem))
    ensures r.1.Keys == fs.Keys
    decreases |layers|
  {
    if layers == [] then (Returned(()), fs)
    else
      var step := LayerStep(fs, paths, config, projectPaths, defs, layers[0]);
      if step.0.Threw? then step
      else SelectedSteps(step.1, paths, config, projectPaths, defs, layers[1..])
  }

  /** One step of the inner loop for a selected dependency whose project file is
      there. */
  lemma DependencyStepWrites(fs: FileSystem, paths: PathModel, config: SolutionConfiguration,
                             projectPaths: ProjectPaths, layer: LayerType, projectPath: string, deps: seq<LayerType>)
    requires deps != [] && IsValidDependency(layer, deps[0]) && deps[0] in config.selectedLayers
    requires Lookup(projectPaths, deps[0]).Returned? && ProjectFile(paths, config, projectPath, layer) in fs
    ensures
      var file := ProjectFile(paths, config, projectPath, layer);
      var path := ReferencePath(paths, config, projectPath, Lookup(projectPaths, deps[0]).value, deps[0]);
      DependencySteps(fs, paths, config, projectPaths, layer, projectPath, deps)
        == DependencySteps(fs[file := AddReference(fs[file], path)], paths, config, projectPaths, layer, projectPath, deps[1..])
  {
  }

  /** The inner loop keeps every tag and every project end, and changes no file but
      the layer's project file. */
  lemma {:induction false} DependencyStepsKeep(fs: FileSystem, paths: PathModel, config: SolutionConfiguration,
                                               projectPaths: ProjectPaths, layer: LayerType, projectPath: string,
                                               deps: seq<LayerType>)
    ensures var fs' := DependencySteps(fs, paths, config, projectPaths, layer, projectPath, deps).1;
      && KeepsReferences(fs, fs') && KeepsProjectEnd(fs, fs')
      && forall p :: p in fs && p != ProjectFile(paths, config, projectPath, layer) ==> fs'[p] == fs[p]
    decreases |deps|
  {
    var file := ProjectFile(paths, config, projectPath, layer);
    if deps != [] && IsValidDependency(layer, deps[0]) {
      var d := deps[0];
      if d !in config.selectedLayers {
        DependencyStepsKeep(fs, paths, config, projectPaths, layer, projectPath, deps[1..]);
      } else if Lookup(projectPaths, d).Returned? && file in fs {
        var fs1 := fs[file := AddReference(fs[file], ReferencePath(paths, config, projectPath, Lookup(projectPaths, d).value, d))];
        WriteReferenceKeeps(fs, file, ReferencePath(paths, config, projectPath, Lookup(projectPaths, d).value, d));
        DependencyStepsKeep(fs1, paths, config, projectPaths, layer, projectPath, deps[1..]);
        KeepsCompose(fs, fs1, DependencySteps(fs1, paths, config, projectPaths, layer, projectPath, deps[1..]).1);
      }
    }
  }

  /** When the inner loop gets through, the layer's project file holds the reference
      to every selected dependency. */
  lemma {:induction false} DependencyStepsReference(fs: FileSystem, paths: PathModel, config: SolutionConfiguration,
                                                    projectPaths: ProjectPaths, layer: LayerType, projectPath: string,
                                                    deps: seq<LayerType>)
    requires Lookup(projectPaths, layer) == Returned(projectPath)
    ensures var step := DependencySteps(fs, paths, config, projectPaths, layer, projectPath, deps);
      step.0.Returned? ==> forall d :: d in deps && d in config.selectedLayers ==>
        Referenced(fs, step.1, paths, config, projectPaths, layer, d)
    decreases |deps|
  {
    var file := ProjectFile(paths, config, projectPath, layer);
    var step := DependencySteps(fs, paths, config, projectPaths, layer, projectPath, deps);
    if deps != [] && IsValidDependency(layer, deps[0]) {
      var d := deps[0];
      if d !in config.selectedLayers {
        DependencyStepsReference(fs, paths, config, projectPaths, layer, projectPath, deps[1..]);
        forall e | e in deps && e in config.selectedLayers ensures e in deps[1..] {
          assert e != d;
        }
      } else if Lookup(projectPaths, d).Returned? && file in fs {
        var q := ReferencePath(paths, config, projectPath, Lookup(projectPaths, d).value, d);
        var fs1 := fs[file := AddReference(fs[file], q)];
        DependencyStepsReference(fs1, paths, config, projectPaths, layer, projectPath, deps[1..]);
        DependencyStepsKeep(fs1, paths, config, projectPaths, layer, projectPath, deps[1..]);
        WriteReferenceKeeps(fs, file, q);
        AddReferenceEffect(fs[file], q);
        assert HoldsReference(fs, fs1, file, q);
        HoldsReferenceKept(fs, fs1, step.1, file, q);
        forall e | e in deps && e in config.selectedLayers && e != d ensures e in deps[1..] {
        }
      }
    }
  }

  /** Every reference path between two projects that have a path is plain. */
  ghost predicate PlainReferencePaths(paths: PathModel, config: SolutionConfiguration, projectPaths: ProjectPaths) {
    forall l, d :: Lookup(projectPaths, l).Returned? && Lookup(projectPaths, d).Returned? ==>
      PlainPath(ReferencePath(paths, config, Lookup(projectPaths, l).value, Lookup(projectPaths, d).value, d))
  }

  /** The inner loop writes no tag but those of the selected dependencies: a tag (of
      a path without `<`) that a file lacked and now holds is in the layer's project
      file and names the project of a selected dependency. */
  lemma {:induction false} DependencyStepsWriteOnlySelected(fs: FileSystem, paths: PathModel, config: SolutionConfiguration,
                                                            projectPaths: ProjectPaths, layer: LayerType, projectPath: string,
                                                            deps: seq<LayerType>, p: string, path: string)
    requires Lookup(projectPaths, layer) == Returned(projectPath) && PlainReferencePaths(paths, config, projectPaths)
    requires NoAngle(path) && p in fs && !Contains(fs[p], ReferenceTag(path))
    requires Contains(DependencySteps(fs, paths, config, projectPaths, layer, projectPath, deps).1[p], ReferenceTag(path))
    ensures p == ProjectFile(paths, config, projectPath, layer)
    ensures exists d ::
      && d in deps && d in config.selectedLayers && Lookup(projectPaths, d).Returned?
      && path == ReferencePath(paths, config, projectPath, Lookup(projectPaths, d).value, d)
    decreases |deps|
  {
    var file := ProjectFile(paths, config, projectPath, layer);
    if deps == [] || !IsValidDependency(layer, deps[0]) {
      assert false;
    }
    var d := deps[0];
    if d !in config.selectedLayers {
      DependencyStepsWriteOnlySelected(fs, paths, config, projectPaths, layer, projectPath, deps[1..], p, path);
      var e :| e in deps[1..] && e in config.selectedLayers && Lookup(projectPaths, e).Returned? &&
        path == ReferencePath(paths, config, projectPath, Lookup(projectPaths, e).value, e);
      assert e in deps;
    } else if Lookup(projectPaths, d).Threw? || file !in fs {
      assert false;
    } else {
      var q := ReferencePath(paths, config, projectPath, Lookup(projectPaths, d).value, d);
      var fs1 := fs[file := AddReference(fs[file], q)];
      if Contains(fs1[p], ReferenceTag(path)) {
        if p != file {
          assert false;
        }
        AddReferenceWritesOnlyItsTag(fs[file], q, path);
        assert d in deps;
      } else {
        DependencyStepsWriteOnlySelected(fs1, paths, config, projectPaths, layer, projectPath, deps[1..], p, path);
        var e :| e in deps[1..] && e in config.selectedLayers && Lookup(projectPaths, e).Returned? &&
          path == ReferencePath(paths, config, projectPath, Lookup(projectPaths, e).value, e);
        assert e in deps;
      }
    }
  }

  /** The loop over the layers writes no tag but those from a layer's project to the
      project of a selected layer it depends on: a tag (of a path without `<`) that a
      file lacked and now holds was written by some layer in `layers` into its own
      project file, for a selected dependency of it. */
  lemma {:induction false} SelectedStepsWriteOnlySelected(fs: FileSystem, paths: PathModel, config: SolutionConfiguration,
                                                          projectPaths: ProjectPaths, defs: LayerTable, layers: seq<LayerType>,
                                                          p: string, path: string)
    requires PlainReferencePaths(paths, config, projectPaths)
    requires NoAngle(path) && p in fs && !Contains(fs[p], ReferenceTag(path))
    requires Contains(SelectedSteps(fs, paths, config, projectPaths, defs, layers).1[p], ReferenceTag(path))
    ensures exists l, d ::
      && l in layers && l in defs && d in defs[l].dependencies && d in config.selectedLayers
      && Lookup(projectPaths, l).Returned? && Lookup(projectPaths, d).Returned?
      && p == ProjectFile(paths, config, Lookup(projectPaths, l).value, l)
      && path == ReferencePath(paths, config, Lookup(projectPaths, l).value, Lookup(projectPaths, d).value, d)
    decreases |layers|
  {
    if layers == [] {
      assert false;
    }
    var l := layers[0];
    var step := LayerStep(fs, paths, config, projectPaths, defs, l);
    if Contains(step.1[p], ReferenceTag(path)) {
      if step.1 == fs {
        assert false;
      }
      var projectPath := Lookup(projectPaths, l).value;
      DependencyStepsWriteOnlySelected(fs, paths, config, projectPaths, l, projectPath, defs[l].dependencies, p, path);
      var d :| d in defs[l].dependencies && d in config.selectedLayers && Lookup(projectPaths, d).Returned? &&
        path == ReferencePath(paths, config, projectPath, Lookup(projectPaths, d).value, d);
      assert l in layers;
    } else {
      if step.0.Threw? {
        assert false;
      }
      SelectedStepsWriteOnlySelected(step.1, paths, config, projectPaths, defs, layers[1..], p, path);
      var l', d :| l' in layers[1..] && l' in defs && d in defs[l'].dependencies && d in config.selectedLayers
        && Lookup(projectPaths, l').Returned? && Lookup(projectPaths, d).Returned?
        && p == ProjectFile(paths, config, Lookup(projectPaths, l').value, l')
        && path == ReferencePath(paths, config, Lookup(projectPaths, l').value, Lookup(projectPaths, d).value, d);
      assert l' in layers;
    }
  }

  // ---------------------------------------------------------------------------
  // The step
  // ---------------------------------------------------------------------------

  /** The body of the loop over the selected layers, for one layer. It runs only on a
      table that passed the dependency check, so its three CRITICAL checks cannot
      fire; each is kept, and proved unreachable. */
  method AddLayerReferences(fs: FileSystem, paths: PathModel, config: SolutionConfiguration,
                            projectPaths: ProjectPaths, defs: LayerTable, layer: LayerType)
    returns (r: Outcome<()>, fs': FileSystem)
    requires AllEdgesAllowed(defs)
    ensures (r, fs') == LayerStep(fs, paths, config, projectPaths, defs, layer)
    ensures fs'.Keys == fs.Keys && KeepsReferences(fs, fs') && KeepsProjectEnd(fs, fs')
    ensures forall p :: p in fs && fs'[p] != fs[p] ==>
      Lookup(projectPaths, layer).Returned? && p == ProjectFile(paths, config, Lookup(projectPaths, layer).value, layer)
    ensures r.Threw? ==> LookupFailure(r.exception)
    ensures r.Returned? ==> layer in defs && Lookup(projectPaths, layer).Returned?
    ensures r.Returned? ==> forall d :: d in defs[layer].dependencies && d in config.selectedLayers ==>
      Referenced(fs, fs', paths, config, projectPaths, layer, d)
  {
    fs' := fs;
    if layer !in defs {
      return Threw(KeyNotFound), fs';
    }
    var definition := defs[layer];
    var projectPath := Lookup(projectPaths, layer);
    if projectPath.Threw? {
      return Threw(KeyNotFound), fs';
    }
    var dependencies := definition.dependencies;
    CriticalChecksPass(defs, layer);

    if layer == SharedKernel && |dependencies| > 0 {
      assert false;
      return Threw(InvalidOperation(SharedKernelCritical)), fs';
    }
    if layer == Domain && |dependencies| > 0 {
      var invalidDependencies := ReportedDependencies(Domain, dependencies);
      if invalidDependencies != [] {
        assert false;
        return Threw(InvalidOperation(DomainCritical(invalidDependencies))), fs';
      }
    }

    r, fs' := AddDependencyReferences(fs, paths, config, projectPaths, layer, projectPath.value, dependencies);
  }

  /** The inner loop: for each selected dependency, write its reference into the
      layer's project file. */
  method AddDependencyReferences(fs: FileSystem, paths: PathModel, config: SolutionConfiguration,
                                 projectPaths: ProjectPaths, layer: LayerType, projectPath: string,
                                 dependencies: seq<LayerType>)
    returns (r: Outcome<()>, fs': FileSystem)
    requires Lookup(projectPaths, layer) == Returned(projectPath)
    requires forall k :: 0 <= k < |dependencies| ==> IsValidDependency(layer, dependencies[k])
    ensures (r, fs') == DependencySteps(fs, paths, config, projectPaths, layer, projectPath, dependencies)
    ensures fs'.Keys == fs.Keys && KeepsReferences(fs, fs') && KeepsProjectEnd(fs, fs')
    ensures forall p :: p in fs && p != ProjectFile(paths, config, projectPath, layer) ==> fs'[p] == fs[p]
    ensures r.Threw? ==> LookupFailure(r.exception)
    ensures r.Returned? ==> forall k :: 0 <= k < |dependencies| && dependencies[k] in config.selectedLayers ==>
      Referenced(fs, fs', paths, config, projectPaths, layer, dependencies[k])
  {
    DependencyStepsKeep(fs, paths, config, projectPaths, layer, projectPath, dependencies);
    DependencyStepsReference(fs, paths, config, projectPaths, layer, projectPath, dependencies);
    fs' := fs;
    var j := 0;
    while j < |dependencies|
      invariant 0 <= j <= |dependencies|
      invariant DependencySteps(fs, paths, config, projectPaths, layer, projectPath, dependencies)
             == DependencySteps(fs', paths, config, projectPaths, layer, projectPath, dependencies[j..])
    {
      var dependency := dependencies[j];
      assert dependencies[j..][1..] == dependencies[j + 1..];
      if !IsValidDependency(layer, dependency) {
        assert false;
        return Threw(InvalidOperation(InvalidDependencyCritical(layer, dependency))), fs';
      }
      if dependency in config.selectedLayers {
        var before := fs';
        var written;
        written, fs' := AddOneReference(fs', paths, config, projectPaths, layer, projectPath, dependency);
        if written.Threw? {
          return written, fs';
        }
        DependencyStepWrites(before, paths, config, projectPaths, layer, projectPath, dependencies[j..]);
      }
      j := j + 1;
    }
    r := Returned(());
  }

  /** The body of the inner loop for a selected dependency: look up its project and
      write the reference to it. */
  method AddOneReference(fs: FileSystem, paths: PathModel, config: SolutionConfiguration,
                         projectPaths: ProjectPaths, layer: LayerType, projectPath: string, dependency: LayerType)
    returns (r: Outcome<()>, fs': FileSystem)
    requires Lookup(projectPaths, layer) == Returned(projectPath)
    ensures r.Threw? <==> Lookup(projectPaths, dependency).Threw? || ProjectFile(paths, config, projectPath, layer) !in fs
    ensures r.Threw? ==>
      && fs' == fs
      && r.exception == (if Lookup(projectPaths, dependency).Threw? then KeyNotFound
                         else FileNotFound(ProjectFile(paths, config, projectPath, layer)))
    ensures r.Returned? ==>
      var file := ProjectFile(paths, config, projectPath, layer);
      fs' == fs[file := AddReference(fs[file], ReferencePath(paths, config, projectPath, Lookup(projectPaths, dependency).value, dependency))]
    ensures fs'.Keys == fs.Keys && KeepsReferences(fs, fs') && KeepsProjectEnd(fs, fs')
    ensures forall p :: p in fs && p != ProjectFile(paths, config, projectPath, layer) ==> fs'[p] == fs[p]
    ensures r.Threw? ==> LookupFailure(r.exception)
    ensures r.Returned? ==> Referenced(fs, fs', paths, config, projectPaths, layer, dependency)
  {
    fs' := fs;
    var projectFile := ProjectFile(paths, config, projectPath, layer);
    var dependencyPath := Lookup(projectPaths, dependency);
    if dependencyPath.Threw? {
      return Threw(KeyNotFound), fs';
    }
    var path := ReferencePath(paths, config, projectPath, dependencyPath.value, dependency);
    r, fs' := WriteReference(fs, projectFile, path);
    if r.Threw? {
      return;
    }
    WriteReferenceKeeps(fs, projectFile, path);
    AddReferenceEffect(fs[projectFile], path);
    assert HoldsReference(fs, fs', projectFile, path);
  }

  /** Read one project file and, unless it already holds the reference, write the
      item group in front of `</Project>`. */
  method WriteReference(fs: FileSystem, file: string, path: string) returns (r: Outcome<()>, fs': FileSystem)
    ensures r.Threw? <==> file !in fs
    ensures r.Threw? ==> r.exception == FileNotFound(file) && fs' == fs
    ensures r.Returned? ==> fs' == fs[file := AddReference(fs[file], path)]
  {
    fs' := fs;
    var content := ReadAllText(fs, file);
    if content.Threw? {
      return Threw(content.exception), fs';
    }
    if !Contains(content.value, ReferenceTag(path)) {
      fs' := fs[file := Replace(content.value, ProjectEnd, ReferenceBlock(path) + ProjectEnd)];
    }
    r := Returned(());
  }

  /** On a table whose every reference is allowed, none of the three CRITICAL checks
      can fire: SharedKernel references nothing, Domain nothing but SharedKernel, and
      every reference of every layer is allowed. */
  lemma CriticalChecksPass(defs: LayerTable, layer: LayerType)
    requires AllEdgesAllowed(defs) && layer in defs
    ensures layer == SharedKernel ==> defs[layer].dependencies == []
    ensures layer == Domain ==> ReportedDependencies(Domain, defs[layer].dependencies) == []
    ensures forall k :: 0 <= k < |defs[layer].dependencies| ==> IsValidDependency(layer, defs[layer].dependencies[k])
  {
    var deps := defs[layer].dependencies;
    forall k | 0 <= k < |deps| ensures IsValidDependency(layer, deps[k]) {
      assert deps[k] in deps;
    }
    assert deps == [] || IsValidDependency(layer, deps[0]);
    forall x | x in deps ensures !Reported(layer, x) {
      ReportedIsInvalid(layer, x);
    }
    NothingReported(layer, deps);
  }

  lemma NothingReported(layer: LayerType, deps: seq<LayerType>)
    requires forall x :: x in deps ==> !Reported(layer, x)
    ensures ReportedDependencies(layer, deps) == []
  {
  }

  /** The SharedKernel step, updating the definitions one at a time; when Application
      is missing, the update to Domain has already been made. */
  method AddSharedKernelReferences(selected: seq<LayerType>, defs: LayerTable) returns (r: Outcome<()>, defs': LayerTable)
    ensures r.Threw? <==> InjectSharedKernel(selected, defs).Threw?
    ensures r.Threw? ==> r == Threw(KeyNotFound)
    ensures r.Threw? ==> defs' == (if Domain in selected && Domain in defs then AddSharedKernelTo(defs, Domain).value else defs)
    ensures r.Returned? ==> InjectSharedKernel(selected, defs) == Returned(defs')
  {
    defs' := defs;
    if SharedKernel in selected {
      if Domain in selected {
        if Domain !in defs' {
          return Threw(KeyNotFound), defs';
        }
        if SharedKernel !in defs'[Domain].dependencies {
          defs' := defs'[Domain := defs'[Domain].(dependencies := defs'[Domain].dependencies + [SharedKernel])];
        }
      }
      if Application in selected {
        if Application !in defs' {
          return Threw(KeyNotFound), defs';
        }
        if SharedKernel !in defs'[Application].dependencies {
          defs' := defs'[Application := defs'[Application].(dependencies := defs'[Application].dependencies + [SharedKernel])];
        }
      }
    }
    r := Returned(());
  }

  /** `AddProjectReferencesAsync`. The definitions are updated in place in the source
      (the caller's table sees the SharedKernel references); here the updated table
      is returned as `defs'`. */
  method AddProjectReferences(fs: FileSystem, paths: PathModel, config: SolutionConfiguration,
                              projectPaths: ProjectPaths, defs: LayerTable)
    returns (r: Outcome<()>, fs': FileSystem, defs': LayerTable)
    ensures InjectSharedKernel(config.selectedLayers, defs).Threw? ==> r == Threw(KeyNotFound) && fs' == fs
    ensures InjectSharedKernel(config.selectedLayers, defs).Returned? ==> defs' == InjectSharedKernel(config.selectedLayers, defs).value
    ensures (InjectSharedKernel(config.selectedLayers, defs).Returned? &&
             HasRequiredKeys(defs') && Closed(defs') && !AllEdgesAllowed(defs')) ==>
      r == Threw(InvalidOperation(RuleViolationPrefix + Join("\n", Violations(defs', HasDirectedCycle(defs'))))) && fs' == fs
    ensures r.Threw? ==>
      (LookupFailure(r.exception) || (r.exception.InvalidOperation? && StartsWith(r.exception.message, RuleViolationPrefix)))
    ensures (InjectSharedKernel(config.selectedLayers, defs).Returned? &&
             !(HasRequiredKeys(defs') && Closed(defs') && AllEdgesAllowed(defs'))) ==> r.Threw? && fs' == fs
    ensures (InjectSharedKernel(config.selectedLayers, defs).Returned? &&
             HasRequiredKeys(defs') && Closed(defs') && AllEdgesAllowed(defs')) ==>
      (r, fs') == SelectedSteps(fs, paths, config, projectPaths, defs', config.selectedLayers)
    ensures r.Returned? ==> HasRequiredKeys(defs') && Closed(defs') && AllEdgesAllowed(defs') && !HasDirectedCycle(defs')
    ensures r.Returned? ==> forall l :: l in config.selectedLayers ==> l in defs' && Lookup(projectPaths, l).Returned?
    ensures r.Returned? ==> ReferencesWritten(fs, fs', paths, config, projectPaths, defs', config.selectedLayers)
    ensures fs'.Keys == fs.Keys && KeepsReferences(fs, fs') && KeepsProjectEnd(fs, fs')
    ensures forall p :: p in fs && fs'[p] != fs[p] ==> IsSelectedProjectFile(paths, config, projectPaths, p)
  {
    fs' := fs;
    var injected;
    injected, defs' := AddSharedKernelReferences(config.selectedLayers, defs);
    if injected.Threw? {
      return injected, fs', defs';
    }

    var validation := ValidateDependencyRules(defs', Some(config));
    if validation.Threw? {
      return Threw(validation.exception), fs', defs';
    }
    if !validation.value.isValid {
      var message := match validation.value.errorMessage case Some(m) => m case None => "";
      if HasRequiredKeys(defs') && Closed(defs') {
        RulesResultIsValid(defs', HasDirectedCycle(defs'));
      }
      return Threw(InvalidOperation(RuleViolationPrefix + message)), fs', defs';
    }
    assert HasRequiredKeys(defs') && Closed(defs') && AllEdgesAllowed(defs');
    AllowedEdgesAreAcyclic(defs');
    r, fs' := AddSelectedReferences(fs, paths, config, projectPaths, defs');
  }

  /** Every selected layer's references to selected layers have been written. */
  ghost predicate ReferencesWritten(fs0: FileSystem, fs: FileSystem, paths: PathModel, config: SolutionConfiguration,
                                    projectPaths: ProjectPaths, defs: LayerTable, layers: seq<LayerType>) {
    forall l, d :: l in layers && l in defs && d in defs[l].dependencies && d in config.selectedLayers ==>
      Referenced(fs0, fs, paths, config, projectPaths, l, d)
  }

  /** The loop of `AddProjectReferencesAsync` over the selected layers, run once the
      dependency check has passed. */
  method AddSelectedReferences(fs: FileSystem, paths: PathModel, config: SolutionConfiguration,
                               projectPaths: ProjectPaths, defs: LayerTable)
    returns (r: Outcome<()>, fs': FileSystem)
    requires AllEdgesAllowed(defs)
    ensures (r, fs') == SelectedSteps(fs, paths, config, projectPaths, defs, config.selectedLayers)
    ensures r.Threw? ==> LookupFailure(r.exception)
    ensures r.Returned? ==> forall l :: l in config.selectedLayers ==> l in defs && Lookup(projectPaths, l).Returned?
    ensures r.Returned? ==> ReferencesWritten(fs, fs', paths, config, projectPaths, defs, config.selectedLayers)
    ensures fs'.Keys == fs.Keys && KeepsReferences(fs, fs') && KeepsProjectEnd(fs, fs')
    ensures forall p :: p in fs && fs'[p] != fs[p] ==> IsSelectedProjectFile(paths, config, projectPaths, p)
  {
    var selected := config.selectedLayers;
    fs' := fs;
    var i := 0;
    while i < |selected|
      invariant 0 <= i <= |selected|
      invariant SelectedSteps(fs, paths, config, projectPaths, defs, selected)
             == SelectedSteps(fs', paths, config, projectPaths, defs, selected[i..])
      invariant fs'.Keys == fs.Keys && KeepsReferences(fs, fs') && KeepsProjectEnd(fs, fs')
      invariant forall p :: p in fs && fs'[p] != fs[p] ==> IsSelectedProjectFile(paths, config, projectPaths, p)
      invariant forall k :: 0 <= k < i ==> selected[k] in defs && Lookup(projectPaths, selected[k]).Returned?
      invariant ReferencesWritten(fs, fs', paths, config, projectPaths, defs, selected[..i])
    {
      var layer := selected[i];
      assert selected[i..][1..] == selected[i + 1..];
      var step, next := AddLayerReferences(fs', paths, config, projectPaths, defs, layer);
      LayerStepKeeps(fs, fs', next, paths, config, projectPaths, layer);
      if step.Threw? {
        return step, next;
      }
      ReferencesExtend(fs, fs', next, paths, config, projectPaths, defs, selected[..i], layer);
      assert selected[..i + 1] == selected[..i] + [layer];
      fs' := next;
      i := i + 1;
    }
    assert selected[..i] == selected;
    r := Returned(());
  }

  /** The references written so far survive a layer step, which adds its own. */
  lemma ReferencesExtend(fs0: FileSystem, fs: FileSystem, fs': FileSystem, paths: PathModel, config: SolutionConfiguration,
                         projectPaths: ProjectPaths, defs: LayerTable, layers: seq<LayerType>, layer: LayerType)
    requires ReferencesWritten(fs0, fs, paths, config, projectPaths, defs, layers)
    requires layer in defs
    requires forall d :: d in defs[layer].dependencies && d in config.selectedLayers ==>
      Referenced(fs, fs', paths, config, projectPaths, layer, d)
    requires forall l, d :: Referenced(fs0, fs, paths, config, projectPaths, l, d) ==> Referenced(fs0, fs', paths, config, projectPaths, l, d)
    requires forall l, d :: Referenced(fs, fs', paths, config, projectPaths, l, d) ==> Referenced(fs0, fs', paths, config, projectPaths, l, d)
    ensures ReferencesWritten(fs0, fs', paths, config, projectPaths, defs, layers + [layer])
  {
  }

  /** A layer step composes with what earlier steps did: tags and project ends are kept
      from the start, references made earlier survive, and the files changed so far
      are all project files of selected layers. */
  lemma LayerStepKeeps(fs0: FileSystem, fs: FileSystem, fs': FileSystem, paths: PathModel,
                       config: SolutionConfiguration, projectPaths: ProjectPaths, layer: LayerType)
    requires layer in config.selectedLayers
    requires fs.Keys == fs0.Keys && KeepsReferences(fs0, fs) && KeepsProjectEnd(fs0, fs)
    requires fs'.Keys == fs.Keys && KeepsReferences(fs, fs') && KeepsProjectEnd(fs, fs')
    requires forall p :: p in fs0 && fs[p] != fs0[p] ==> IsSelectedProjectFile(paths, config, projectPaths, p)
    requires forall p :: p in fs && fs'[p] != fs[p] ==>
      Lookup(projectPaths, layer).Returned? && p == ProjectFile(paths, config, Lookup(projectPaths, layer).value, layer)
    ensures fs'.Keys == fs0.Keys && KeepsReferences(fs0, fs') && KeepsProjectEnd(fs0, fs')
    ensures forall p :: p in fs0 && fs'[p] != fs0[p] ==> IsSelectedProjectFile(paths, config, projectPaths, p)
    ensures forall l, d :: Referenced(fs0, fs, paths, config, projectPaths, l, d) ==> Referenced(fs0, fs', paths, config, projectPaths, l, d)
    ensures forall l, d :: Referenced(fs, fs', paths, config, projectPaths, l, d) ==> Referenced(fs0, fs', paths, config, projectPaths, l, d)
  {
    forall p | p in fs0 && fs'[p] != fs0[p] ensures IsSelectedProjectFile(paths, config, projectPaths, p) {
      if fs'[p] != fs[p] {
        assert layer in config.selectedLayers && p == ProjectFile(paths, config, Lookup(projectPaths, layer).value, layer);
      }
    }
  }
}
