/** What the declaration steps and the three passes of `build_program` mean: node
    declarations append nodes in source order and bind each name to its latest
    declaration; a table's primary keys are exactly its fields marked primary; tables are
    built after every node is declared, wherever the nodes block stands; hops are
    allocated in source order with no node resolved; and the program is returned, and
    the builder reset, exactly when no table and no function fails. */
module ProgramProofs {
  import opened Ast
  import opened ParseTree
  import opened BuilderSpec
  import opened BuilderProofs

  // ---------------------------------------------------------------------------------
  // Nodes.
  // ---------------------------------------------------------------------------------

  /** `m` after binding each of `names` in turn to the next id from `base`: a name
      declared more than once ends bound to its last declaration. */
  function BindAll(m: map<string, nat>, names: seq<string>, base: nat): map<string, nat>
  {
    if names == [] then m
    else BindAll(m, names[..|names| - 1], base)[names[|names| - 1] := base + |names| - 1]
  }

  /** `q` is `p` after declaring the nodes `names` in that order: one node and one root
      node each, appended, and each name bound in turn; nothing else changed. */
  ghost predicate Declares(p: Program, q: Program, names: seq<string>) {
    && q == p.(nodes := q.nodes, nodeMap := q.nodeMap, rootNodes := q.rootNodes)
    && |q.nodes| == |p.nodes| + |names| && p.nodes <= q.nodes
    && (forall k :: |p.nodes| <= k < |q.nodes| ==> q.nodes[k] == NodeDef(names[k - |p.nodes|]))
    && |q.rootNodes| == |p.rootNodes| + |names| && p.rootNodes <= q.rootNodes
    && (forall k :: |p.rootNodes| <= k < |q.rootNodes| ==> q.rootNodes[k] == |p.nodes| + (k - |p.rootNodes|))
    && q.nodeMap == BindAll(p.nodeMap, names, |p.nodes|)
  }

  lemma DeclaresNothing(p: Program)
    ensures Declares(p, p, [])
  {
  }

  /** `AddNode` declares one node. */
  lemma AddNodeDeclares(p: Program, name: string)
    ensures Declares(p, AddNode(p, name), [name])
  {
    assert [name][..0] == [];
  }

  /** Binding `a` and then `b` binds `a + b`. */
  lemma {:induction false} BindAllCompose(m: map<string, nat>, a: seq<string>, b: seq<string>, base: nat)
    ensures BindAll(m, a + b, base) == BindAll(BindAll(m, a, base), b, base + |a|)
    decreases |b|
  {
    if b == [] {
      assert a + b == a;
    } else {
      var b' := b[..|b| - 1];
      assert (a + b)[..|a + b| - 1] == a + b';
      BindAllCompose(m, a, b', base);
    }
  }

  /** Declaring `a` and then `b` declares `a + b`. */
  lemma DeclaresCompose(p: Program, q: Program, r: Program, a: seq<string>, b: seq<string>)
    requires Declares(p, q, a) && Declares(q, r, b)
    ensures Declares(p, r, a + b)
  {
    BindAllCompose(p.nodeMap, a, b, |p.nodes|);
    var names := a + b;
    forall k | |p.nodes| <= k < |r.nodes|
      ensures r.nodes[k] == NodeDef(names[k - |p.nodes|])
    {
      if k < |q.nodes| {
        assert r.nodes[k] == q.nodes[k];
      } else {
        assert names[k - |p.nodes|] == b[k - |q.nodes|];
      }
    }
    forall k | |p.rootNodes| <= k < |r.rootNodes|
      ensures r.rootNodes[k] == |p.nodes| + (k - |p.rootNodes|)
    {
      if k < |q.rootNodes| {
        assert r.rootNodes[k] == q.rootNodes[k];
      }
    }
  }

  /** `j` is the position of the last occurrence of `names[k]` in `names`. */
  ghost predicate Latest(names: seq<string>, k: nat, j: int)
    requires k < |names|
  {
    k <= j < |names| && names[j] == names[k] && forall i :: j < i < |names| ==> names[i] != names[k]
  }

  /** The names bound after declaring `names` are those bound before and those
      declared. */
  lemma {:induction false} BindAllKeys(m: map<string, nat>, names: seq<string>, base: nat)
    ensures forall x :: x in BindAll(m, names, base) <==> x in m || x in names
    decreases |names|
  {
    if names != [] {
      var init := names[..|names| - 1];
      BindAllKeys(m, init, base);
      assert names == init + [names[|names| - 1]];
    }
  }

  /** A name that is not declared keeps its binding. */
  lemma {:induction false} BindAllKeeps(m: map<string, nat>, names: seq<string>, base: nat, x: string)
    requires x in m && x !in names
    ensures x in BindAll(m, names, base) && BindAll(m, names, base)[x] == m[x]
    decreases |names|
  {
    if names != [] {
      var init := names[..|names| - 1];
      assert names == init + [names[|names| - 1]];
      BindAllKeeps(m, init, base, x);
    }
  }

  /** A declared name is bound to the id of its last declaration. */
  lemma {:induction false} BindAllLatest(m: map<string, nat>, names: seq<string>, base: nat, k: nat)
    requires k < |names|
    ensures names[k] in BindAll(m, names, base)
    ensures Latest(names, k, BindAll(m, names, base)[names[k]] - base)
    decreases |names|
  {
    var last := names[|names| - 1];
    if names[k] != last {
      var init := names[..|names| - 1];
      BindAllLatest(m, init, base, k);
    }
  }

  /** The identifiers among the first `n` children of a node list, in source order. */
  function NodeNames(items: seq<Pair>, n: nat): seq<string>
    requires n <= |items|
  {
    if n == 0 then []
    else NodeNames(items, n - 1) + (if items[n - 1].rule.Identifier? then [items[n - 1].text] else [])
  }

  /** A node list declares its identifiers, in source order. */
  lemma {:induction false} NodeListDeclares(p: Program, items: seq<Pair>, n: nat)
    requires n <= |items|
    ensures Declares(p, NodeListPrefix(p, items, n), NodeNames(items, n))
  {
    if n == 0 {
      DeclaresNothing(p);
    } else {
      NodeListDeclares(p, items, n - 1);
      var q := NodeListPrefix(p, items, n - 1);
      if items[n - 1].rule.Identifier? {
        AddNodeDeclares(q, items[n - 1].text);
        DeclaresCompose(p, q, AddNode(q, items[n - 1].text), NodeNames(items, n - 1), [items[n - 1].text]);
      } else {
        assert NodeListPrefix(p, items, n) == q;
        assert NodeNames(items, n) == NodeNames(items, n - 1);
      }
    }
  }

  /** The nodes the first `n` node lists of a nodes block name, in source order. */
  function BlockNodeNames(items: seq<Pair>, n: nat): seq<string>
    requires n <= |items|
  {
    if n == 0 then []
    else
      BlockNodeNames(items, n - 1)
      + (if items[n - 1].rule.NodeList? then NodeNames(items[n - 1].inner, |items[n - 1].inner|) else [])
  }

  /** A nodes block declares the nodes of its node lists, in source order. */
  lemma {:induction false} NodesBlockDeclares(p: Program, items: seq<Pair>, n: nat)
    requires n <= |items|
    ensures Declares(p, NodesBlockPrefix(p, items, n), BlockNodeNames(items, n))
  {
    if n == 0 {
      DeclaresNothing(p);
    } else {
      NodesBlockDeclares(p, items, n - 1);
      var q := NodesBlockPrefix(p, items, n - 1);
      var item := items[n - 1];
      if item.rule.NodeList? {
        NodeListDeclares(q, item.inner, |item.inner|);
        DeclaresCompose(p, q, NodeListBuilt(q, item), BlockNodeNames(items, n - 1),
                        NodeNames(item.inner, |item.inner|));
      } else {
        assert NodesBlockPrefix(p, items, n) == q;
        assert BlockNodeNames(items, n) == BlockNodeNames(items, n - 1);
      }
    }
  }

  /** The nodes the nodes blocks among the first `n` items of a program name, in source
      order. */
  function ProgramNodeNames(items: seq<Pair>, n: nat): seq<string>
    requires n <= |items|
  {
    if n == 0 then []
    else
      ProgramNodeNames(items, n - 1)
      + (if items[n - 1].rule.NodesBlock? then BlockNodeNames(items[n - 1].inner, |items[n - 1].inner|) else [])
  }

  /** The first pass declares the nodes of every nodes block of the program, in source
      order; a name declared twice is two nodes and two root nodes, and names the later. */
  lemma {:induction false} NodesPassDeclares(p: Program, items: seq<Pair>, n: nat)
    requires n <= |items|
    ensures Declares(p, NodesPass(p, items, n), ProgramNodeNames(items, n))
  {
    if n == 0 {
      DeclaresNothing(p);
    } else {
      NodesPassDeclares(p, items, n - 1);
      var q := NodesPass(p, items, n - 1);
      var item := items[n - 1];
      if item.rule.NodesBlock? {
        NodesBlockDeclares(q, item.inner, |item.inner|);
        DeclaresCompose(p, q, NodesBlockBuilt(q, item), ProgramNodeNames(items, n - 1),
                        BlockNodeNames(item.inner, |item.inner|));
      } else {
        assert NodesPass(p, items, n) == q;
        assert ProgramNodeNames(items, n) == ProgramNodeNames(items, n - 1);
      }
    }
  }

  /** Declaring a name twice gives two nodes and two root nodes, and the name is bound to
      the second. */
  lemma DuplicateNodeNames(p: Program, name: string)
    ensures var q := AddNode(AddNode(p, name), name);
      && q.nodes == p.nodes + [NodeDef(name), NodeDef(name)]
      && q.rootNodes == p.rootNodes + [|p.nodes|, |p.nodes| + 1]
      && q.nodeMap[name] == |p.nodes| + 1
  {
  }

  // ---------------------------------------------------------------------------------
  // Tables.
  // ---------------------------------------------------------------------------------

  /** The ids among `ids` whose fields are marked primary, in their order in `ids`. */
  function PrimaryAmong(ids: seq<nat>, fields: seq<FieldDeclaration>): seq<nat>
    requires IdsBelow(ids, |fields|)
  {
    if ids == [] then []
    else
      var last := ids[|ids| - 1];
      PrimaryAmong(ids[..|ids| - 1], fields) + (if fields[last].isPrimary then [last] else [])
  }

  /** An id is among the primary ones exactly when it is among `ids` and its field is
      marked primary. */
  lemma {:induction false} PrimaryAmongMembers(ids: seq<nat>, fields: seq<FieldDeclaration>)
    requires IdsBelow(ids, |fields|)
    ensures forall x :: x in PrimaryAmong(ids, fields) <==> x in ids && x < |fields| && fields[x].isPrimary
    decreases |ids|
  {
    if ids != [] {
      var init := ids[..|ids| - 1];
      PrimaryAmongMembers(init, fields);
      assert ids == init + [ids[|ids| - 1]];
    }
  }

  /** Fields allocated later do not change which earlier fields are primary. */
  lemma {:induction false} PrimaryAmongExtend(ids: seq<nat>, fields: seq<FieldDeclaration>, more: seq<FieldDeclaration>)
    requires IdsBelow(ids, |fields|)
    ensures PrimaryAmong(ids, fields + more) == PrimaryAmong(ids, fields)
    decreases |ids|
  {
    if ids != [] {
      PrimaryAmongExtend(ids[..|ids| - 1], fields, more);
      assert (fields + more)[ids[|ids| - 1]] == fields[ids[|ids| - 1]];
    }
  }

  /** `q` is `p` with fields appended and nothing else changed. */
  ghost predicate FieldsGrow(p: Program, q: Program) {
    q == p.(fields := q.fields) && p.fields <= q.fields
  }

  /** Building the fields of a table only appends fields, and a field with an unknown
      type stops the table with that error. */
  lemma {:induction false} FieldsFrame(p: Program, items: seq<Pair>, n: nat)
    requires n <= |items| && forall k :: 0 <= k < |items| ==> LocalShape(items[k])
    ensures var b := FieldsPrefix(p, items, n);
      && FieldsGrow(p, b.program)
      && (b.result.Err? ==> b.result.error.ParseError? && b.result.error.problem.UnknownType?)
  {
    if n > 0 {
      FieldsFrame(p, items, n - 1);
      var b := FieldsPrefix(p, items, n - 1);
      var item := items[n - 1];
      if b.result.Ok? && item.rule.FieldDeclarationRule? {
        FieldFrame(b.program, item);
        FieldsGrowTrans(p, b.program, FieldBuilt(b.program, item).program);
      }
    }
  }

  lemma FieldsGrowTrans(p: Program, q: Program, r: Program)
    requires FieldsGrow(p, q) && FieldsGrow(q, r)
    ensures FieldsGrow(p, r)
  {
  }

  /** A field declaration as the grammar lays it out: an optional `primary` keyword, a
      type and a name. */
  predicate FieldDecl(pair: Pair) {
    LocalShape(pair) && pair.rule.FieldDeclarationRule?
  }

  /** The text spelling the declared field's type. */
  function FieldTypeText(pair: Pair): string
    requires FieldDecl(pair)
  {
    if pair.inner[0].rule.PrimaryKeyword? then pair.inner[1].text else pair.inner[0].text
  }

  /** The declared field's name. */
  function FieldNameText(pair: Pair): string
    requires FieldDecl(pair)
  {
    if pair.inner[0].rule.PrimaryKeyword? then pair.inner[2].text else pair.inner[1].text
  }

  /** Field `f` is the one declaration `pair` declares: its type is spelled as
      written, its name is the declared one, and it is a primary key exactly when the
      declaration starts with `primary`. */
  predicate DeclaresField(f: FieldDeclaration, pair: Pair)
    requires FieldDecl(pair)
  {
    TypeKeyword(f.fieldType) == FieldTypeText(pair) && f.fieldName == FieldNameText(pair)
    && (f.isPrimary <==> pair.inner[0].rule.PrimaryKeyword?)
  }

  /** The field declarations among the first `n` items, in source order. */
  function FieldDeclarations(items: seq<Pair>, n: nat): (r: seq<Pair>)
    requires n <= |items| && forall k :: 0 <= k < |items| ==> LocalShape(items[k])
    ensures forall k :: 0 <= k < |r| ==> FieldDecl(r[k])
  {
    if n == 0 then []
    else FieldDeclarations(items, n - 1) + (if items[n - 1].rule.FieldDeclarationRule? then [items[n - 1]] else [])
  }

  /** `build_field_declaration` fails exactly when the type is not a type keyword, with
      `UnknownType` naming the text and nothing allocated; otherwise it appends the field
      the declaration declares and returns its id with whether it is a primary key. */
  lemma FieldOutcome(p: Program, pair: Pair)
    requires FieldDecl(pair)
    ensures var f := FieldBuilt(p, pair);
      && (f.result.Ok? <==> IsTypeKeyword(FieldTypeText(pair)))
      && (f.result.Err? ==> f == Built(p, Err(ParseError(UnknownType(FieldTypeText(pair))))))
      && (f.result.Ok? ==>
            && f.result.value == (|p.fields|, pair.inner[0].rule.PrimaryKeyword?)
            && |f.program.fields| == |p.fields| + 1
            && f.program == p.(fields := p.fields + [f.program.fields[|p.fields|]])
            && DeclaresField(f.program.fields[|p.fields|], pair))
  {
    ParseTypeNameAccepts(FieldTypeText(pair));
  }

  /** A field declaration allocates at most one field, or reports its unknown type. */
  lemma FieldFrame(p: Program, pair: Pair)
    requires LocalShape(pair) && pair.rule.FieldDeclarationRule?
    ensures var f := FieldBuilt(p, pair);
      && FieldsGrow(p, f.program)
      && (f.result.Err? ==> f.result.error.ParseError? && f.result.error.problem.UnknownType?)
  {
  }

  /** The fields of a table are allocated one after the other, in source order, and its
      primary keys are those of them marked primary. */
  lemma {:induction false} FieldsInOrder(p: Program, items: seq<Pair>, n: nat)
    requires n <= |items| && forall k :: 0 <= k < |items| ==> LocalShape(items[k])
    requires FieldsPrefix(p, items, n).result.Ok?
    ensures var b := FieldsPrefix(p, items, n);
      var ids := b.result.value.fieldIds;
      && |ids| == |b.program.fields| - |p.fields|
      && (forall k :: 0 <= k < |ids| ==> ids[k] == |p.fields| + k)
      && IdsBelow(ids, |b.program.fields|)
      && b.result.value.primaryKeyIds == PrimaryAmong(ids, b.program.fields)
      && var decls := FieldDeclarations(items, n);
      && |ids| == |decls|
      && forall k :: 0 <= k < |ids| ==> DeclaresField(b.program.fields[ids[k]], decls[k])
  {
    if n > 0 {
      var b := FieldsPrefix(p, items, n - 1);
      var item := items[n - 1];
      if b.result.Ok? {
        FieldsInOrder(p, items, n - 1);
        if item.rule.FieldDeclarationRule? {
          var f := FieldBuilt(b.program, item);
          var ids := b.result.value.fieldIds;
          var id := f.result.value.0;
          FieldOutcome(b.program, item);
          assert f.program.fields == b.program.fields + [f.program.fields[id]];
          PrimaryAmongExtend(ids, b.program.fields, [f.program.fields[id]]);
          assert (ids + [id])[..|ids|] == ids;
        }
      }
    }
  }

  /** `q` is `p` with a table declared, its fields allocated, and nothing else changed. */
  ghost predicate TablesGrow(p: Program, q: Program) {
    && q == p.(fields := q.fields, tables := q.tables, tableMap := q.tableMap, rootTables := q.rootTables)
    && p.fields <= q.fields && p.tables <= q.tables
  }

  /** `build_table_declaration` reports an undeclared node exactly when the table's node
      is not declared, then the first field's unknown type if a field fails, and a
      missing primary key exactly when its fields build and none is marked primary; it
      succeeds exactly when none of these happens, and then it appends the table, on its
      node, with its fields in order and exactly the primary ones as its primary keys,
      binds its name to it and makes it a root table.  Its fields are the ones its field declarations declare, one
      each, allocated in source order right after the fields before it.  Only the table
      and field arenas change, and only by appending. */
  lemma TableOutcome(p: Program, pair: Pair)
    requires Shaped(pair) && pair.rule.TableDeclarationRule?
    requires forall k :: 0 <= k < |pair.inner| ==> LocalShape(pair.inner[k])  // follows from Shaped(pair)
    ensures var t := TableBuilt(p, pair);
      var tableName := pair.inner[0].text;
      var nodeName := pair.inner[1].text;
      var f := FieldsPrefix(p, pair.inner[2..], |pair.inner| - 2);
      && TablesGrow(p, t.program)
      && (t.result.Err? && t.result.error.UndeclaredNode? <==> nodeName !in p.nodeMap)
      && (t.result.Err? && t.result.error.UndeclaredNode? ==> t.result.error.nodeName == nodeName)
      && (t.result == Err(ParseError(NoPrimaryKey(tableName))) <==>
            nodeName in p.nodeMap && f.result.Ok? && f.result.value.primaryKeyIds == [])
      && (nodeName in p.nodeMap && f.result.Err? ==>
            t.result == Err(f.result.error) && f.result.error.ParseError? && f.result.error.problem.UnknownType?)
      && (t.result.Ok? <==> nodeName in p.nodeMap && f.result.Ok? && f.result.value.primaryKeyIds != [])
      && (t.result.Ok? ==>
            && |t.program.tables| == |p.tables| + 1
            && t.program.tables[|p.tables|].name == tableName
            && t.program.tables[|p.tables|].node == p.nodeMap[nodeName]
            && IdsBelow(t.program.tables[|p.tables|].fields, |t.program.fields|)
            && t.program.tables[|p.tables|].primaryKeys != []
            && t.program.tables[|p.tables|].primaryKeys
               == PrimaryAmong(t.program.tables[|p.tables|].fields, t.program.fields)
            && var fs := t.program.tables[|p.tables|].fields;
            && var decls := FieldDeclarations(pair.inner[2..], |pair.inner| - 2);
            && |fs| == |decls| && |t.program.fields| == |p.fields| + |fs|
            && (forall k :: 0 <= k < |fs| ==> fs[k] == |p.fields| + k && DeclaresField(t.program.fields[fs[k]], decls[k]))
            && t.program.tableMap == p.tableMap[tableName := |p.tables|]
            && t.program.rootTables == p.rootTables + [|p.tables|])
  {
    var items := pair.inner[2..];
    FieldsFrame(p, items, |items|);
    var f := FieldsPrefix(p, items, |items|);
    var t := TableBuilt(p, pair);
    if t.result.Ok? {
      FieldsInOrder(p, items, |items|);
      assert t.program.fields == f.program.fields;
      assert t.program.tables[|p.tables|].fields == f.result.value.fieldIds;
    }
  }

  // ---------------------------------------------------------------------------------
  // Hops and functions.
  // ---------------------------------------------------------------------------------

  /** `q` is `p` with expressions, statements, hops and parameters appended and nothing
      else changed. */
  ghost predicate BodyGrow(p: Program, q: Program) {
    && q == p.(expressions := q.expressions, statements := q.statements, hops := q.hops, parameters := q.parameters)
    && p.expressions <= q.expressions && p.statements <= q.statements
    && p.hops <= q.hops && p.parameters <= q.parameters
  }

  lemma BodyGrowTrans(p: Program, q: Program, r: Program)
    requires BodyGrow(p, q) && BodyGrow(q, r)
    ensures BodyGrow(p, r)
  {
  }

  lemma StmtsBodyGrow(p: Program, q: Program)
    requires StmtsGrow(p, q)
    ensures BodyGrow(p, q)
  {
  }

  /** The blocks of a hop only append expressions and statements, and the statements of
      the hop are statements they allocated. */
  lemma {:induction false} HopItemsFrame(p: Program, items: seq<Pair>, n: nat)
    requires n <= |items| && forall k :: 0 <= k < |items| ==> Shaped(items[k])
    ensures var b := HopItemsPrefix(p, items, n);
      && StmtsGrow(p, b.program)
      && (b.result.Ok? ==> forall k :: 0 <= k < |b.result.value| ==> |p.statements| <= b.result.value[k] < |b.program.statements|)
  {
    if n > 0 {
      HopItemsFrame(p, items, n - 1);
      var b := HopItemsPrefix(p, items, n - 1);
      if b.result.Ok? && items[n - 1].rule.BlockRule? {
        BlockGrows(b.program, items[n - 1], |items[n - 1].inner|);
        StmtsGrowTrans(p, b.program, BlockBuilt(b.program, items[n - 1]).program);
      }
    }
  }

  /** `build_hop_block` appends one hop, on the node it names, unresolved, whose
      statements it allocated itself. */
  lemma HopOutcome(p: Program, pair: Pair)
    requires Shaped(pair) && pair.rule.HopBlockRule?
    ensures var h := HopBuilt(p, pair);
      && BodyGrow(p, h.program)
      && (h.result.Ok? ==>
            && h.result.value == |p.hops| && |h.program.hops| == |p.hops| + 1
            && h.program.hops[|p.hops|].nodeName == pair.inner[0].text
            && h.program.hops[|p.hops|].resolvedNode == None
            && forall k :: 0 <= k < |h.program.hops[|p.hops|].statements| ==>
                 |p.statements| <= h.program.hops[|p.hops|].statements[k] < |h.program.statements|)
  {
    var items := pair.inner[1..];
    forall k | 0 <= k < |items| ensures Shaped(items[k]) {
      ShapedChild(pair, k + 1);
    }
    HopItemsFrame(p, items, |items|);
    var b := HopItemsPrefix(p, items, |items|);
    StmtsBodyGrow(p, b.program);
  }

  /** The node names of the hop blocks among the first `n` items, in source order. */
  function HopNames(items: seq<Pair>, n: nat): seq<string>
    requires n <= |items|
  {
    if n == 0 then []
    else
      var item := items[n - 1];
      HopNames(items, n - 1) + (if item.rule.HopBlockRule? && |item.inner| > 0 then [item.inner[0].text] else [])
  }

  /** The hops `ids` are the last `|names|` hops of `q`, after those of `p`, in order, on
      the nodes `names`, and none is resolved. */
  ghost predicate HopsInOrder(p: Program, q: Program, ids: seq<nat>, names: seq<string>) {
    && |ids| == |names| && |q.hops| == |p.hops| + |ids|
    && (forall k :: 0 <= k < |ids| ==> ids[k] == |p.hops| + k)
    && (forall k :: |p.hops| <= k < |q.hops| ==> q.hops[k].nodeName == names[k - |p.hops|])
    && (forall k :: |p.hops| <= k < |q.hops| ==> q.hops[k].resolvedNode == None)
  }

  /** Hops appended after hops appended are appended in order. */
  lemma HopsInOrderCompose(p: Program, q: Program, r: Program, a: seq<nat>, b: seq<nat>, x: seq<string>, y: seq<string>)
    requires HopsInOrder(p, q, a, x) && HopsInOrder(q, r, b, y) && p.hops <= q.hops && q.hops <= r.hops
    ensures HopsInOrder(p, r, a + b, x + y)
  {
    forall k | |p.hops| <= k < |r.hops|
      ensures r.hops[k].nodeName == (x + y)[k - |p.hops|] && r.hops[k].resolvedNode == None
    {
      if k < |q.hops| {
        assert r.hops[k] == q.hops[k];
      }
    }
  }

  /** The hop blocks of a function body only append hops (and what their statements
      need), and do not change the node, table, field or function arenas. */
  lemma {:induction false} BodyHopsFrame(p: Program, items: seq<Pair>, n: nat)
    requires n <= |items| && forall k :: 0 <= k < |items| ==> Shaped(items[k])
    ensures BodyGrow(p, BodyHopsPrefix(p, items, n).program)
  {
    if n > 0 {
      BodyHopsFrame(p, items, n - 1);
      var b := BodyHopsPrefix(p, items, n - 1);
      if b.result.Ok? && items[n - 1].rule.HopBlockRule? {
        HopOutcome(b.program, items[n - 1]);
        BodyGrowTrans(p, b.program, HopBuilt(b.program, items[n - 1]).program);
      }
    }
  }

  /** The hop blocks of a function body are allocated one after the other, in source
      order, each on the node it names and none resolved. */
  lemma {:induction false} BodyHopsInOrder(p: Program, items: seq<Pair>, n: nat)
    requires n <= |items| && forall k :: 0 <= k < |items| ==> Shaped(items[k])
    requires BodyHopsPrefix(p, items, n).result.Ok?
    ensures var b := BodyHopsPrefix(p, items, n);
      HopsInOrder(p, b.program, b.result.value, HopNames(items, n))
  {
    if n > 0 {
      var b := BodyHopsPrefix(p, items, n - 1);
      var item := items[n - 1];
      if b.result.Ok? {
        BodyHopsInOrder(p, items, n - 1);
        if item.rule.HopBlockRule? {
          var h := HopBuilt(b.program, item);
          HopOutcome(b.program, item);
          BodyHopsFrame(p, items, n - 1);
          HopsInOrderCompose(p, b.program, h.program, b.result.value, [h.result.value],
                             HopNames(items, n - 1), [item.inner[0].text]);
        } else {
          assert HopNames(items, n) == HopNames(items, n - 1);
        }
      }
    }
  }

  /** `q` is `p` with parameters appended and nothing else changed. */
  ghost predicate ParamsGrow(p: Program, q: Program) {
    q == p.(parameters := q.parameters) && p.parameters <= q.parameters
  }

  /** Parameter `d` is the one declaration `pair` declares: its type is spelled as
      written and its name is the declared one. */
  predicate DeclaresParameter(d: ParameterDecl, pair: Pair)
    requires LocalShape(pair) && pair.rule.ParameterDeclRule?
  {
    TypeKeyword(d.paramType) == pair.inner[0].text && d.paramName == pair.inner[1].text
  }

  /** `build_parameter_decl` fails exactly when the type is not a type keyword, with
      `UnknownType` naming the text and nothing allocated; otherwise it appends the
      parameter the declaration declares and returns its id. */
  lemma ParameterOutcome(p: Program, pair: Pair)
    requires LocalShape(pair) && pair.rule.ParameterDeclRule?
    ensures var d := ParameterBuilt(p, pair);
      && (d.result.Ok? <==> IsTypeKeyword(pair.inner[0].text))
      && (d.result.Err? ==> d == Built(p, Err(ParseError(UnknownType(pair.inner[0].text)))))
      && (d.result.Ok? ==>
            && d.result.value == |p.parameters|
            && |d.program.parameters| == |p.parameters| + 1
            && d.program == p.(parameters := p.parameters + [d.program.parameters[|p.parameters|]])
            && DeclaresParameter(d.program.parameters[|p.parameters|], pair))
  {
    ParseTypeNameAccepts(pair.inner[0].text);
  }

  /** The parameter declarations among the first `n` items, in source order. */
  function ParameterDeclarations(items: seq<Pair>, n: nat): (r: seq<Pair>)
    requires n <= |items| && forall k :: 0 <= k < |items| ==> Shaped(items[k])
    ensures forall k :: 0 <= k < |r| ==> LocalShape(r[k]) && r[k].rule.ParameterDeclRule?
  {
    if n == 0 then []
    else ParameterDeclarations(items, n - 1) + (if items[n - 1].rule.ParameterDeclRule? then [items[n - 1]] else [])
  }

  /** A parameter list only appends parameters, one per declaration, one after the other
      in source order, each the parameter its declaration declares. */
  lemma {:induction false} ParametersInOrder(p: Program, items: seq<Pair>, n: nat)
    requires n <= |items| && forall k :: 0 <= k < |items| ==> Shaped(items[k])
    ensures var b := ParametersPrefix(p, items, n);
      && ParamsGrow(p, b.program)
      && (b.result.Ok? ==>
            && |b.result.value| == |b.program.parameters| - |p.parameters|
            && (forall k :: 0 <= k < |b.result.value| ==> b.result.value[k] == |p.parameters| + k)
            && var decls := ParameterDeclarations(items, n);
            && |b.result.value| == |decls|
            && forall k :: 0 <= k < |decls| ==> DeclaresParameter(b.program.parameters[|p.parameters| + k], decls[k]))
  {
    if n > 0 {
      ParametersInOrder(p, items, n - 1);
      var b := ParametersPrefix(p, items, n - 1);
      if b.result.Ok? && items[n - 1].rule.ParameterDeclRule? {
        ParameterOutcome(b.program, items[n - 1]);
      }
    }
  }

  /** The node names of the hop blocks of the body items among the first `n` items of a
      function declaration, in source order. */
  function FunctionHopNames(items: seq<Pair>, n: nat): seq<string>
    requires n <= |items|
  {
    if n == 0 then []
    else
      var item := items[n - 1];
      FunctionHopNames(items, n - 1) + (if item.rule.FunctionBodyItem? then HopNames(item.inner, |item.inner|) else [])
  }

  /** The parameter declarations of the last parameter list among the first `n` items
      of a function declaration: each parameter list replaces the parameters before it. */
  function FunctionParameterDecls(items: seq<Pair>, n: nat): (r: seq<Pair>)
    requires n <= |items| && forall k :: 0 <= k < |items| ==> Shaped(items[k])
    ensures forall k :: 0 <= k < |r| ==> LocalShape(r[k]) && r[k].rule.ParameterDeclRule?
  {
    if n == 0 then []
    else if items[n - 1].rule.ParameterList? then
      assert Shaped(items[n - 1]);
      ParameterDeclarations(items[n - 1].inner, |items[n - 1].inner|)
    else FunctionParameterDecls(items, n - 1)
  }

  /** The parameters of a function are those of its last parameter list: parameters
      it allocated itself, one per declaration, with consecutive ids in source order,
      each the parameter its declaration declares. */
  lemma {:induction false} FunctionParametersInOrder(p: Program, items: seq<Pair>, n: nat)
    requires n <= |items| && forall k :: 0 <= k < |items| ==> Shaped(items[k])
    requires FunctionItemsPrefix(p, items, n).result.Ok?
    ensures var b := FunctionItemsPrefix(p, items, n);
      var ps := b.result.value.parameters;
      var decls := FunctionParameterDecls(items, n);
      && |ps| == |decls|
      && (forall k :: 0 <= k < |ps| ==> ps[k] == ps[0] + k)
      && (forall k :: 0 <= k < |ps| ==>
            |p.parameters| <= ps[k] < |b.program.parameters| && DeclaresParameter(b.program.parameters[ps[k]], decls[k]))
  {
    if n > 0 {
      var b := FunctionItemsPrefix(p, items, n - 1);
      var item := items[n - 1];
      FunctionItemsFrame(p, items, n - 1);
      if item.rule.ParameterList? {
        ParametersInOrder(b.program, item.inner, |item.inner|);
      } else {
        FunctionParametersInOrder(p, items, n - 1);
        if item.rule.FunctionBodyItem? {
          BodyHopsFrame(b.program, item.inner, |item.inner|);
          var hs := BodyHopsPrefix(b.program, item.inner, |item.inner|);
          var ps := b.result.value.parameters;
          forall k | 0 <= k < |ps| ensures hs.program.parameters[ps[k]] == b.program.parameters[ps[k]] {
          }
        }
      }
    }
  }

  /** The items of a function declaration only append parameters, hops and what their
      statements need. */
  lemma {:induction false} FunctionItemsFrame(p: Program, items: seq<Pair>, n: nat)
    requires n <= |items| && forall k :: 0 <= k < |items| ==> Shaped(items[k])
    ensures BodyGrow(p, FunctionItemsPrefix(p, items, n).program)
  {
    if n > 0 {
      FunctionItemsFrame(p, items, n - 1);
      var b := FunctionItemsPrefix(p, items, n - 1);
      var item := items[n - 1];
      if b.result.Ok? {
        if item.rule.ParameterList? {
          ParametersInOrder(b.program, item.inner, |item.inner|);
          BodyGrowTrans(p, b.program, ParameterListBuilt(b.program, item).program);
        } else if item.rule.FunctionBodyItem? {
          BodyHopsFrame(b.program, item.inner, |item.inner|);
          BodyGrowTrans(p, b.program, BodyHopsPrefix(b.program, item.inner, |item.inner|).program);
        }
      }
    }
  }

  /** The hops of a function are allocated one after the other, in the order of its
      body's hop blocks, each on the node it names and none resolved. */
  lemma {:induction false} FunctionHopsInOrder(p: Program, items: seq<Pair>, n: nat)
    requires n <= |items| && forall k :: 0 <= k < |items| ==> Shaped(items[k])
    requires FunctionItemsPrefix(p, items, n).result.Ok?
    ensures var b := FunctionItemsPrefix(p, items, n);
      HopsInOrder(p, b.program, b.result.value.hops, FunctionHopNames(items, n))
  {
    if n > 0 {
      var b := FunctionItemsPrefix(p, items, n - 1);
      var item := items[n - 1];
      FunctionHopsInOrder(p, items, n - 1);
      FunctionItemsFrame(p, items, n - 1);
      if item.rule.ParameterList? {
        ParametersInOrder(b.program, item.inner, |item.inner|);
        assert FunctionHopNames(items, n) == FunctionHopNames(items, n - 1);
      } else if item.rule.FunctionBodyItem? {
        var hs := BodyHopsPrefix(b.program, item.inner, |item.inner|);
        BodyHopsInOrder(b.program, item.inner, |item.inner|);
        BodyHopsFrame(b.program, item.inner, |item.inner|);
        HopsInOrderCompose(p, b.program, hs.program, b.result.value.hops, hs.result.value,
                           FunctionHopNames(items, n - 1), HopNames(item.inner, |item.inner|));
      } else {
        assert FunctionHopNames(items, n) == FunctionHopNames(items, n - 1);
      }
    }
  }

  /** `q` is `p` with a function declared, what its body needs allocated, and nothing
      else changed. */
  ghost predicate FunctionsGrow(p: Program, q: Program) {
    && q == p.(expressions := q.expressions, statements := q.statements, hops := q.hops,
               parameters := q.parameters, functions := q.functions, functionMap := q.functionMap,
               rootFunctions := q.rootFunctions)
    && p.expressions <= q.expressions && p.statements <= q.statements && p.hops <= q.hops
    && p.parameters <= q.parameters && p.functions <= q.functions
  }

  /** `build_function_declaration` reports an unknown return type before building
      anything; otherwise, when its items build, it appends the function with its name,
      its return type, the parameters of its last parameter list and its hops in source
      order, each on the node it names and none resolved, binds its name to it and makes
      it a root function.  Every arena it changes only grows. */
  lemma FunctionOutcome(p: Program, pair: Pair)
    requires Shaped(pair) && pair.rule.FunctionDeclarationRule?
    ensures var t := FunctionBuilt(p, pair);
      var items := pair.inner[2..];
      && FunctionsGrow(p, t.program)
      && (ParseRetType(pair.inner[0].text).Err? ==>
            t == Built(p, Err(ParseError(UnknownType(pair.inner[0].text)))))
      && (t.result.Ok? ==>
            && |t.program.functions| == |p.functions| + 1
            && t.program.functions[|p.functions|].name == pair.inner[1].text
            && ParseRetType(pair.inner[0].text) == Ok(t.program.functions[|p.functions|].returnType)
            && HopsInOrder(p, t.program, t.program.functions[|p.functions|].hops, FunctionHopNames(items, |items|))
            && var ps := t.program.functions[|p.functions|].parameters;
            && var decls := FunctionParameterDecls(items, |items|);
            && |ps| == |decls|
            && (forall k :: 0 <= k < |ps| ==> ps[k] == ps[0] + k)
            && (forall k :: 0 <= k < |ps| ==>
                  |p.parameters| <= ps[k] < |t.program.parameters| && DeclaresParameter(t.program.parameters[ps[k]], decls[k]))
            && t.program.functionMap == p.functionMap[pair.inner[1].text := |p.functions|]
            && t.program.rootFunctions == p.rootFunctions + [|p.functions|])
  {
    var items := pair.inner[2..];
    forall k | 0 <= k < |items| ensures Shaped(items[k]) {
      ShapedChild(pair, k + 2);
    }
    if ParseRetType(pair.inner[0].text).Ok? {
      FunctionItemsFrame(p, items, |items|);
      if FunctionItemsPrefix(p, items, |items|).result.Ok? {
        FunctionHopsInOrder(p, items, |items|);
        FunctionParametersInOrder(p, items, |items|);
      }
    }
  }

  // ---------------------------------------------------------------------------------
  // The three passes of `build_program`.
  // ---------------------------------------------------------------------------------

  lemma TablesGrowTrans(p: Program, q: Program, r: Program)
    requires TablesGrow(p, q) && TablesGrow(q, r)
    ensures TablesGrow(p, r)
  {
  }

  /** The second pass only declares tables and their fields. */
  lemma {:induction false} TablesPassFrame(c: Collected, items: seq<Pair>, n: nat)
    requires n <= |items| && forall k :: 0 <= k < |items| ==> Shaped(items[k])
    ensures TablesGrow(c.program, TablesPass(c, items, n).program)
  {
    if n > 0 {
      TablesPassFrame(c, items, n - 1);
      var d := TablesPass(c, items, n - 1);
      if items[n - 1].rule.TableDeclarationRule? {
        ChildrenLocalShape(items[n - 1]);
        TableOutcome(d.program, items[n - 1]);
        TablesGrowTrans(c.program, d.program, TableBuilt(d.program, items[n - 1]).program);
      }
    }
  }

  /** Every table is built after the first pass has declared every node of the program,
      wherever the nodes blocks stand among the program's items: a table reports an
      undeclared node exactly when its node is neither bound before nor declared by any
      nodes block of the program. */
  lemma TablesSeeEveryNode(p: Program, items: seq<Pair>, i: nat)
    requires i < |items| && forall k :: 0 <= k < |items| ==> Shaped(items[k])
    requires items[i].rule.TableDeclarationRule?
    ensures var nodes := NodesPass(p, items, |items|);
      var before := TablesPass(Collected(nodes, []), items, i).program;
      var t := TableBuilt(before, items[i]);
      && before.nodeMap == nodes.nodeMap
      && (t.result.Err? && t.result.error.UndeclaredNode? <==>
            items[i].inner[1].text !in p.nodeMap && items[i].inner[1].text !in ProgramNodeNames(items, |items|))
  {
    var nodes := NodesPass(p, items, |items|);
    TablesPassFrame(Collected(nodes, []), items, i);
    NodesPassDeclares(p, items, |items|);
    BindAllKeys(p.nodeMap, ProgramNodeNames(items, |items|), |p.nodes|);
    ChildrenLocalShape(items[i]);
    TableOutcome(TablesPass(Collected(nodes, []), items, i).program, items[i]);
  }

  /** The second pass collects no error exactly when it starts with none and every table
      builds. */
  lemma {:induction false} TablesPassErrors(c: Collected, items: seq<Pair>, n: nat)
    requires n <= |items| && forall k :: 0 <= k < |items| ==> Shaped(items[k])
    ensures TablesPass(c, items, n).errors == [] <==>
      && c.errors == []
      && forall i :: 0 <= i < n && items[i].rule.TableDeclarationRule? ==>
           TableBuilt(TablesPass(c, items, i).program, items[i]).result.Ok?
  {
    if n > 0 {
      TablesPassErrors(c, items, n - 1);
    }
  }

  /** The third pass collects no error exactly when it starts with none and every
      function builds. */
  lemma {:induction false} FunctionsPassErrors(c: Collected, items: seq<Pair>, n: nat)
    requires n <= |items| && forall k :: 0 <= k < |items| ==> Shaped(items[k])
    ensures FunctionsPass(c, items, n).errors == [] <==>
      && c.errors == []
      && forall i :: 0 <= i < n && items[i].rule.FunctionDeclarationRule? ==>
           FunctionBuilt(FunctionsPass(c, items, i).program, items[i]).result.Ok?
  {
    if n > 0 {
      FunctionsPassErrors(c, items, n - 1);
    }
  }

  /** `build_program` returns the program exactly when every table and every function
      builds, and then starts the builder afresh; otherwise it returns the errors and the
      builder keeps what was built. */
  lemma ProgramOutcome(p: Program, pair: Pair)
    requires Shaped(pair)
    ensures var items := pair.inner;
      var tables := TablesPass(Collected(NodesPass(p, items, |items|), []), items, |items|);
      var o := ProgramBuilt(p, pair);
      && (o.result.Ok? <==>
            && (forall i :: 0 <= i < |items| && items[i].rule.TableDeclarationRule? ==>
                  TableBuilt(TablesPass(Collected(NodesPass(p, items, |items|), []), items, i).program, items[i]).result.Ok?)
            && (forall i :: 0 <= i < |items| && items[i].rule.FunctionDeclarationRule? ==>
                  FunctionBuilt(FunctionsPass(tables, items, i).program, items[i]).result.Ok?))
      && (o.result.Ok? ==> o.builder == EmptyProgram)
      && (o.result.Err? ==> o.result.error != [] && o.builder == FunctionsPass(tables, items, |items|).program)
  {
    var items := pair.inner;
    var nodes := NodesPass(p, items, |items|);
    TablesPassErrors(Collected(nodes, []), items, |items|);
    FunctionsPassErrors(TablesPass(Collected(nodes, []), items, |items|), items, |items|);
  }
}
