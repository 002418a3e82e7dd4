/**
 * The branching dungeon map (src/dungeon/dungeon_map.py): nodes keyed by
 * id, each with a type, a floor, an x position and the ids it connects to,
 * and the progress state of selecting nodes one after another. The random
 * generation of floors, node types, connections and enemies is not
 * modelled: a generated node dictionary is a parameter of the constructor.
 */
module PyDungeon {
  import opened Wrappers

  datatype NodeType = Battle | Treasure | Event | Rest | Shop | Boss | Elite

  /** NodeType.value, the prefix of generated node ids. */
  function TypeName(t: NodeType): string {
    match t
    case Battle => "battle"
    case Treasure => "treasure"
    case Event => "event"
    case Rest => "rest"
    case Shop => "shop"
    case Boss => "boss"
    case Elite => "elite"
  }

  /** DungeonNode, without the enemy type and reward seed drawn at random. */
  datatype DungeonNode = DungeonNode(nodeId: string, nodeType: NodeType, floor: int, x: int,
                                     connections: seq<string>, visited: bool, available: bool)

  // ---------------------------------------------------------------------
  // Node ids
  // ---------------------------------------------------------------------

  function Digit(d: int): char
    requires 0 <= d < 10
  {
    "0123456789"[d]
  }

  /** str(n) for a natural number. */
  function NatToString(n: nat): (s: string)
    ensures |s| >= 1 && forall i :: 0 <= i < |s| ==> '0' <= s[i] <= '9'
    decreases n
  {
    if n < 10 then [Digit(n)] else NatToString(n / 10) + [Digit(n % 10)]
  }

  /** str(i) for any integer. */
  function IntToString(i: int): (s: string)
    ensures |s| >= 1
  {
    if i < 0 then "-" + NatToString(-i) else NatToString(i)
  }

  /** The id f"{type}_{floor}_{x}" a generated node gets. */
  function NodeIdFor(t: NodeType, floor: int, x: int): string {
    TypeName(t) + "_" + IntToString(floor) + "_" + IntToString(x)
  }

  // ---------------------------------------------------------------------
  // _calculate_x_positions
  // ---------------------------------------------------------------------

  /** positions[:count] with Python's slicing: a negative count drops that many from the end. */
  function SlicePrefix(s: seq<int>, count: int): (r: seq<int>)
    ensures |r| <= |s| && r == s[..|r|]
    ensures count >= 0 ==> |r| == if count < |s| then count else |s|
    ensures count < 0 ==> |r| == if |s| + count > 0 then |s| + count else 0
  {
    if count >= 0 then (if count < |s| then s[..count] else s)
    else if |s| + count > 0 then s[..|s| + count] else []
  }

  /** The columns 0 .. 6 (range(7)). */
  const Columns: seq<int> := [0, 1, 2, 3, 4, 5, 6]

  /**
   * _calculate_x_positions: a fixed table for one to six nodes; any other
   * count takes a prefix of `shuffled`, the shuffled range(7) the source
   * draws at random.
   */
  function XPositions(count: int, shuffled: seq<int>): seq<int> {
    if count == 1 then [3]
    else if count == 2 then [1, 5]
    else if count == 3 then [1, 3, 5]
    else if count == 4 then [0, 2, 4, 6]
    else if count == 5 then [0, 1, 3, 5, 6]
    else if count == 6 then [0, 1, 2, 4, 5, 6]
    else SlicePrefix(shuffled, count)
  }

  /** The table gives `count` positions, strictly increasing, all in 0 .. 6. */
  lemma XPositionsTable(count: int, shuffled: seq<int>)
    requires 1 <= count <= 6
    ensures |XPositions(count, shuffled)| == count
    ensures forall i, j :: 0 <= i < j < count ==> XPositions(count, shuffled)[i] < XPositions(count, shuffled)[j]
    ensures forall i :: 0 <= i < count ==> 0 <= XPositions(count, shuffled)[i] <= 6
  {
  }

  /** The symmetric table: position i and position count - 1 - i are mirror images around column 3. */
  lemma XPositionsSymmetric(count: int, shuffled: seq<int>, i: int)
    requires 1 <= count <= 6 && 0 <= i < count
    ensures XPositions(count, shuffled)[i] + XPositions(count, shuffled)[count - 1 - i] == 6
  {
  }

  /** Beyond six nodes, the positions are distinct columns whenever the shuffle is a permutation of range(7). */
  lemma XPositionsShuffled(count: int, shuffled: seq<int>)
    requires count >= 7
    requires multiset(shuffled) == multiset(Columns)
    ensures XPositions(count, shuffled) == shuffled
    ensures |XPositions(count, shuffled)| == 7
    ensures forall i, j :: 0 <= i < j < 7 ==> XPositions(count, shuffled)[i] != XPositions(count, shuffled)[j]
  {
    assert |shuffled| == |multiset(shuffled)| == 7;
    forall v
      ensures multiset(shuffled)[v] <= 1
    {
      assert Columns == [0, 1, 2, 3, 4, 5, 6];
    }
    forall i, j | 0 <= i < j < 7
      ensures shuffled[i] != shuffled[j]
    {
      SingleOccurrencesDistinct(shuffled, i, j);
    }
  }

  /** In a sequence where no value occurs twice, two different indices hold different values. */
  lemma SingleOccurrencesDistinct<T>(s: seq<T>, i: int, j: int)
    requires 0 <= i < j < |s|
    requires forall v :: multiset(s)[v] <= 1
    ensures s[i] != s[j]
  {
    if s[i] == s[j] {
      RepeatedTwice(s, i, j);
      assert false;
    }
  }

  /** A value at two indices of s occurs at least twice in it. */
  lemma RepeatedTwice<T>(s: seq<T>, i: int, j: int)
    requires 0 <= i < j < |s| && s[i] == s[j]
    ensures multiset(s)[s[i]] >= 2
  {
    assert s == s[..i] + [s[i]] + s[i + 1..j] + [s[j]] + s[j + 1..];
  }

  // ---------------------------------------------------------------------
  // _can_place_special_node_type
  // ---------------------------------------------------------------------

  function Abs(v: int): nat {
    if v < 0 then -v else v
  }

  /**
   * _can_place_special_node_type: a shop or rest site is refused on the
   * floor right after the last one of its type, and two floors after it
   * when it is within two columns; otherwise (or with no earlier one) it
   * may be placed.
   */
  function CanPlaceSpecial(floor: int, position: int, prev: map<NodeType, (int, int)>, t: NodeType): bool {
    if t !in prev then true
    else
      var (prevFloor, prevPos) := prev[t];
      var floorDiff := floor - prevFloor;
      if floorDiff <= 2 then
        if floorDiff == 1 then false
        else if floorDiff == 2 then !(Abs(position - prevPos) <= 2)
        else true
      else true
  }

  /** The placement rule in one statement: refused exactly for a gap of one floor, or of two floors within two columns. */
  lemma CanPlaceSpecialIff(floor: int, position: int, prev: map<NodeType, (int, int)>, t: NodeType)
    ensures !CanPlaceSpecial(floor, position, prev, t) <==>
      t in prev &&
      (floor - prev[t].0 == 1 || (floor - prev[t].0 == 2 && -2 <= position - prev[t].1 <= 2))
  {
  }

  // ---------------------------------------------------------------------
  // _convert_battle_to_elite
  // ---------------------------------------------------------------------

  /** The connection list with every occurrence of oldId replaced by newId. */
  function Renamed(conns: seq<string>, oldId: string, newId: string): (r: seq<string>)
    ensures |r| == |conns|
    ensures forall i :: 0 <= i < |r| ==> r[i] == (if conns[i] == oldId then newId else conns[i])
  {
    seq(|conns|, i requires 0 <= i < |conns| => if conns[i] == oldId then newId else conns[i])
  }

  /** After the rewrite no connection names the old id, and every other connection is kept in place. */
  lemma RenamedRemovesOld(conns: seq<string>, oldId: string, newId: string)
    requires oldId != newId
    ensures oldId !in Renamed(conns, oldId, newId)
    ensures newId in Renamed(conns, oldId, newId) <==> newId in conns || oldId in conns
  {
    var r := Renamed(conns, oldId, newId);
    if newId in r {
      var i :| 0 <= i < |r| && r[i] == newId;
      assert conns[i] == newId || conns[i] == oldId;
    }
    if oldId in conns {
      var i :| 0 <= i < |conns| && conns[i] == oldId;
      assert r[i] == newId;
    }
    if newId in conns {
      var i :| 0 <= i < |conns| && conns[i] == newId;
      assert r[i] == newId;
    }
  }

  /** Every node's connections rewritten from oldId to newId. */
  function RenameAll(nodes: map<string, DungeonNode>, oldId: string, newId: string): (r: map<string, DungeonNode>)
    ensures r.Keys == nodes.Keys
  {
    map k | k in nodes :: nodes[k].(connections := Renamed(nodes[k].connections, oldId, newId))
  }

  /**
   * _convert_battle_to_elite on the node dictionary: a battle node becomes
   * an elite node, is filed under the new id elite_{floor}_{x} in place of
   * its old id (when the old id was a key), and every connection to the old
   * id now points to the new one. Any other node type leaves the map as it is.
   */
  function ConvertedToElite(nodes: map<string, DungeonNode>, node: DungeonNode): map<string, DungeonNode> {
    if node.nodeType != Battle then nodes
    else
      var newId := NodeIdFor(Elite, node.floor, node.x);
      var elite := node.(nodeType := Elite, nodeId := newId);
      var rekeyed := if node.nodeId in nodes then (nodes - {node.nodeId})[newId := elite] else nodes;
      RenameAll(rekeyed, node.nodeId, newId)
  }

  /** The conversion changes only battle nodes, and afterwards no connection points to the old id. */
  lemma ConvertedToEliteSpec(nodes: map<string, DungeonNode>, node: DungeonNode)
    ensures node.nodeType != Battle ==> ConvertedToElite(nodes, node) == nodes
    ensures node.nodeType == Battle ==>
      var newId := NodeIdFor(Elite, node.floor, node.x);
      var after := ConvertedToElite(nodes, node);
      (node.nodeId in nodes ==>
        newId in after && after[newId].nodeType == Elite && after[newId].floor == node.floor && after[newId].x == node.x &&
        (node.nodeId != newId ==> node.nodeId !in after)) &&
      (node.nodeId != newId ==> forall k :: k in after ==> node.nodeId !in after[k].connections)
  {
    if node.nodeType == Battle {
      var newId := NodeIdFor(Elite, node.floor, node.x);
      var after := ConvertedToElite(nodes, node);
      if node.nodeId != newId {
        forall k | k in after
          ensures node.nodeId !in after[k].connections
        {
          var rekeyed := if node.nodeId in nodes then (nodes - {node.nodeId})[newId := node.(nodeType := Elite, nodeId := newId)] else nodes;
          RenamedRemovesOld(rekeyed[k].connections, node.nodeId, newId);
        }
      }
    }
  }

  /** The old id of a generated battle node always differs from its elite id, so the rewrite is never a no-op. */
  lemma GeneratedBattleIdChanges(floor: int, x: int)
    ensures NodeIdFor(Battle, floor, x) != NodeIdFor(Elite, floor, x)
  {
    assert NodeIdFor(Battle, floor, x)[0] == 'b';
    assert NodeIdFor(Elite, floor, x)[0] == 'e';
  }

  // ---------------------------------------------------------------------
  // Availability
  // ---------------------------------------------------------------------

  /**
   * _update_available_nodes as a function of the node map: a node is
   * available exactly when it is an unvisited connection of the current
   * node; nothing else about a node changes.
   */
  function Refreshed(nodes: map<string, DungeonNode>, current: Option<string>): (r: map<string, DungeonNode>)
    ensures r.Keys == nodes.Keys
  {
    map k | k in nodes ::
      nodes[k].(available := current.Some? && current.value in nodes &&
                             k in nodes[current.value].connections && !nodes[k].visited)
  }

  /**
   * After a refresh a node is available exactly when it is an unvisited
   * connection of the current node, and nothing else about it changes.
   */
  lemma RefreshedAvailability(nodes: map<string, DungeonNode>, current: Option<string>, k: string)
    requires k in nodes
    ensures var r := Refreshed(nodes, current);
      (r[k].available ==> !r[k].visited) &&
      (r[k].available ==> current.Some? && current.value in nodes && k in nodes[current.value].connections) &&
      (current.Some? && current.value in nodes && k in nodes[current.value].connections && !nodes[k].visited ==> r[k].available) &&
      r[k].(available := nodes[k].available) == nodes[k]
  {
  }

  /** Refreshing twice gives what refreshing once gave. */
  lemma RefreshedIdempotent(nodes: map<string, DungeonNode>, current: Option<string>)
    ensures Refreshed(Refreshed(nodes, current), current) == Refreshed(nodes, current)
  {
  }

  // ---------------------------------------------------------------------
  // DungeonMap
  // ---------------------------------------------------------------------

  class DungeonMap {
    const totalFloors: int
    var currentFloor: int
    var currentNode: Option<string>
    var nodes: map<string, DungeonNode>
    var pathHistory: seq<string>

    /**
     * The progress invariant: the current node is a node and the last one
     * visited, every node in the history is visited, and no visited node is
     * available.
     */
    ghost predicate Valid()
      reads this
    {
      (currentNode.Some? ==> currentNode.value in nodes && |pathHistory| > 0 && pathHistory[|pathHistory| - 1] == currentNode.value) &&
      (forall i :: 0 <= i < |pathHistory| ==> pathHistory[i] in nodes && nodes[pathHistory[i]].visited) &&
      (forall k :: k in nodes && nodes[k].visited ==> !nodes[k].available)
    }

    /**
     * The end of generate_map on the generated nodes: every node unvisited
     * and unavailable except the nodes of floor 0, which are available.
     */
    constructor(totalFloors: int, generated: map<string, DungeonNode>)
      ensures Valid()
      ensures this.totalFloors == totalFloors && currentFloor == 0 && currentNode == None && pathHistory == []
      ensures nodes.Keys == generated.Keys
      ensures forall k :: k in nodes ==>
        nodes[k] == generated[k].(visited := false, available := generated[k].floor == 0)
    {
      this.totalFloors := totalFloors;
      currentFloor := 0;
      currentNode := None;
      pathHistory := [];
      nodes := map k | k in generated :: generated[k].(visited := false, available := generated[k].floor == 0);
    }

    /** _update_available_nodes: every node made unavailable, then the unvisited connections of the current node made available. */
    method UpdateAvailableNodes()
      requires currentNode.Some? ==> currentNode.value in nodes
      modifies this
      ensures nodes == Refreshed(old(nodes), currentNode)
      ensures currentNode == old(currentNode) && currentFloor == old(currentFloor) && pathHistory == old(pathHistory)
    {
      ghost var n0 := nodes;
      ClearAvailable();
      if currentNode.Some? {
        var conns := nodes[currentNode.value].connections;
        ghost var n1 := nodes;
        MarkConnections(conns);
        forall k | k in n0
          ensures nodes[k] == Refreshed(n0, currentNode)[k]
        {
          assert nodes[k] == n1[k].(available := k in conns && !n1[k].visited);
        }
      }
    }

    /** The first loop of _update_available_nodes: every node made unavailable. */
    method ClearAvailable()
      modifies this
      ensures nodes == map k | k in old(nodes) :: old(nodes)[k].(available := false)
      ensures currentNode == old(currentNode) && currentFloor == old(currentFloor) && pathHistory == old(pathHistory)
    {
      ghost var n0 := nodes;
      var keys := nodes.Keys;
      while keys != {}
        invariant keys <= n0.Keys && nodes.Keys == n0.Keys
        invariant currentNode == old(currentNode) && currentFloor == old(currentFloor) && pathHistory == old(pathHistory)
        invariant forall k :: k in n0 ==> nodes[k] == if k in keys then n0[k] else n0[k].(available := false)
        decreases keys
      {
        var k :| k in keys;
        nodes := nodes[k := nodes[k].(available := false)];
        keys := keys - {k};
      }
    }

    /** The second loop of _update_available_nodes: each unvisited node among conns made available. */
    method MarkConnections(conns: seq<string>)
      modifies this
      ensures nodes == map k | k in old(nodes) :: old(nodes)[k].(available := old(nodes)[k].available || (k in conns && !old(nodes)[k].visited))
      ensures currentNode == old(currentNode) && currentFloor == old(currentFloor) && pathHistory == old(pathHistory)
    {
      ghost var n0 := nodes;
      for i := 0 to |conns|
        invariant nodes.Keys == n0.Keys
        invariant currentNode == old(currentNode) && currentFloor == old(currentFloor) && pathHistory == old(pathHistory)
        invariant forall k :: k in n0 ==> nodes[k] == n0[k].(available := n0[k].available || (k in conns[..i] && !n0[k].visited))
      {
        assert conns[..i + 1] == conns[..i] + [conns[i]];
        if conns[i] in nodes && !nodes[conns[i]].visited {
          nodes := nodes[conns[i] := nodes[conns[i]].(available := true)];
        }
      }
      assert conns[..|conns|] == conns;
    }

    /**
     * select_node: an unknown id or an unavailable unvisited node is
     * refused and a visited node accepted, both without any change; an
     * available node becomes the current node, is marked visited and
     * unavailable, is appended to the history, sets the current floor, and
     * availability is refreshed from it.
     */
    method SelectNode(nodeId: string) returns (ok: bool)
      requires Valid()
      modifies this
      ensures Valid()
      ensures nodeId !in old(nodes) ==> !ok && unchanged(this)
      ensures nodeId in old(nodes) && old(nodes[nodeId].visited) ==> ok && unchanged(this)
      ensures nodeId in old(nodes) && !old(nodes[nodeId].visited) && !old(nodes[nodeId].available) ==> !ok && unchanged(this)
      ensures nodeId in old(nodes) && !old(nodes[nodeId].visited) && old(nodes[nodeId].available) ==>
        ok && currentNode == Some(nodeId) && currentFloor == old(nodes[nodeId].floor) &&
        pathHistory == old(pathHistory) + [nodeId] &&
        nodes == Refreshed(old(nodes)[nodeId := old(nodes[nodeId]).(visited := true, available := false)], Some(nodeId))
      ensures nodeId in old(nodes) && old(nodes[nodeId].available) && old(nodes[nodeId].nodeType) == Boss ==> IsCompleted()
    {
      if nodeId !in nodes {
        return false;
      }
      var node := nodes[nodeId];
      if node.visited {
        return true;
      }
      if !node.available {
        return false;
      }
      currentNode := Some(nodeId);
      nodes := nodes[nodeId := node.(visited := true, available := false)];
      pathHistory := pathHistory + [nodeId];
      currentFloor := node.floor;
      UpdateAvailableNodes();
      ok := true;
    }

    /** is_completed: the current node is the boss node and has been visited. */
    predicate IsCompleted()
      reads this
    {
      currentNode.Some? && currentNode.value in nodes &&
      nodes[currentNode.value].nodeType == Boss && nodes[currentNode.value].visited
    }

    /** _convert_battle_to_elite on this map's node dictionary. */
    method ConvertBattleToElite(node: DungeonNode)
      modifies this
      ensures nodes == ConvertedToElite(old(nodes), node)
      ensures currentNode == old(currentNode) && currentFloor == old(currentFloor) && pathHistory == old(pathHistory)
    {
      if node.nodeType != Battle {
        return;
      }
      var oldId := node.nodeId;
      var newId := "elite_" + IntToString(node.floor) + "_" + IntToString(node.x);
      assert newId == NodeIdFor(Elite, node.floor, node.x);
      var elite := node.(nodeType := Elite, nodeId := newId);
      if oldId in nodes {
        nodes := (nodes - {oldId})[newId := elite];
      }
      ghost var n0 := nodes;
      var keys := nodes.Keys;
      while keys != {}
        invariant keys <= n0.Keys && nodes.Keys == n0.Keys
        invariant currentNode == old(currentNode) && currentFloor == old(currentFloor) && pathHistory == old(pathHistory)
        invariant forall k :: k in n0 ==>
          nodes[k] == if k in keys then n0[k] else n0[k].(connections := Renamed(n0[k].connections, oldId, newId))
        decreases keys
      {
        var k :| k in keys;
        if oldId in nodes[k].connections {
          nodes := nodes[k := nodes[k].(connections := Renamed(nodes[k].connections, oldId, newId))];
        } else {
          assert Renamed(nodes[k].connections, oldId, newId) == nodes[k].connections;
        }
        keys := keys - {k};
      }
      assert nodes == RenameAll(n0, oldId, newId);
    }
  }
}
