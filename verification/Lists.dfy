/** The linked list of pending requests (lists.h), refined to the sequence of its descriptors. */
module Lists {

  class Request {
    const client_fd: int
    var next: Request?

    constructor (fd: int)
      ensures client_fd == fd && next == null
    {
      client_fd, next := fd, null;
    }
  }

  /** Node i, or null past the end. */
  ghost function NodeAt(nodes: seq<Request>, i: nat): Request? {
    if i < |nodes| then nodes[i] else null
  }

  /** The nodes, in order, are the list that starts at head. */
  ghost predicate IsList(head: Request?, nodes: seq<Request>)
    reads nodes
  {
    && head == NodeAt(nodes, 0)
    && (forall i :: 0 <= i < |nodes| ==> nodes[i].next == NodeAt(nodes, i + 1))
    && (forall i, j :: 0 <= i < j < |nodes| ==> nodes[i] != nodes[j])
  }

  /** What the list stands for. */
  ghost function Fds(nodes: seq<Request>): (fds: seq<int>)
    ensures |fds| == |nodes|
    ensures forall i :: 0 <= i < |nodes| ==> fds[i] == nodes[i].client_fd
  {
    seq(|nodes|, i requires 0 <= i < |nodes| => nodes[i].client_fd)
  }

  /** The place of the first occurrence of fd, or the length if there is none. */
  function FirstIndex(fds: seq<int>, fd: int): (i: nat)
    ensures i <= |fds| && (forall k :: 0 <= k < i ==> fds[k] != fd)
    ensures i < |fds| ==> fds[i] == fd
  {
    if fds == [] then 0
    else if fds[0] == fd then 0
    else
      FirstIndex(fds[1..], fd) + 1
  }

  /** fds without the first occurrence of fd. */
  function RemoveFirst(fds: seq<int>, fd: int): seq<int>
    requires fd in fds
  {
    var i := FirstIndex(fds, fd);
    if i == |fds| then assert false; fds else fds[..i] + fds[i + 1..]
  }

  method IsListEmpty(list: Request?, ghost nodes: seq<Request>) returns (empty: bool)
    requires IsList(list, nodes)
    ensures empty <==> Fds(nodes) == []
  {
    empty := list == null;
  }

  method SizeOfList(list: Request?, ghost nodes: seq<Request>) returns (size: nat)
    requires IsList(list, nodes)
    ensures size == |Fds(nodes)|
  {
    size := 0;
    var list := list;
    while list != null
      invariant size <= |nodes|
      invariant list == NodeAt(nodes, size)
      decreases |nodes| - size
    {
      size := size + 1;
      list := list.next;
    }
  }

  /** append_left; mallocOk says whether malloc succeeds. */
  method AppendLeft(fd: int, list: Request?, ghost nodes: seq<Request>, mallocOk: bool)
      returns (head: Request?, ghost nodes': seq<Request>)
    requires IsList(list, nodes)
    ensures IsList(head, nodes')
    ensures Fds(nodes') == if mallocOk then [fd] + Fds(nodes) else Fds(nodes)
    ensures forall n :: n in nodes' ==> n in nodes || fresh(n)
  {
    if !mallocOk {
      return list, nodes;
    }
    head := new Request(fd);
    head.next := list;
    nodes' := [head] + nodes;
  }

  /** append_right: the last node is found by a walk and the new one is linked after it. */
  method AppendRight(fd: int, list: Request?, ghost nodes: seq<Request>, mallocOk: bool)
      returns (head: Request?, ghost nodes': seq<Request>)
    requires IsList(list, nodes)
    modifies nodes
    ensures IsList(head, nodes')
    ensures Fds(nodes') == if mallocOk then Fds(nodes) + [fd] else Fds(nodes)
    ensures forall n :: n in nodes' ==> n in nodes || fresh(n)
  {
    if !mallocOk {
      return list, nodes;
    }
    var new_request := new Request(fd);
    if list == null {
      head, nodes' := new_request, [new_request];
      assert Fds(nodes') == Fds(nodes) + [fd];
      return;
    }
    var list_aux := list;
    ghost var i := 0;
    while list_aux.next != null
      invariant IsList(list, nodes)
      invariant 0 <= i < |nodes| && list_aux == nodes[i]
      decreases |nodes| - i
    {
      list_aux := list_aux.next;
      i := i + 1;
    }
    assert i == |nodes| - 1;
    list_aux.next := new_request;
    head, nodes' := list, nodes + [new_request];
    assert Fds(nodes') == Fds(nodes) + [fd];
  }

  /** search_antecessor: the node before the first one that holds fd, or before the end; null if that is
      the head. */
  method SearchAntecessor(fd: int, list: Request?, ghost nodes: seq<Request>) returns (ant: Request?)
    requires IsList(list, nodes)
    ensures var i := FirstIndex(Fds(nodes), fd);
            ant == if i == 0 then null else nodes[i - 1]
  {
    ant := null;
    var list := list;
    ghost var i := 0;
    ghost var fds := Fds(nodes);
    while list != null && list.client_fd != fd
      invariant i <= |nodes| && (forall k :: 0 <= k < i ==> fds[k] != fd)
      invariant list == NodeAt(nodes, i)
      invariant ant == if i == 0 then null else nodes[i - 1]
      decreases |nodes| - i
    {
      ant := list;
      list := list.next;
      i := i + 1;
    }
  }

  /** A list in which node i is passed over is the list without node i. */
  lemma Unlinked(head: Request?, nodes: seq<Request>, i: nat)
    requires i < |nodes| && head == (if i == 0 then NodeAt(nodes, 1) else nodes[0])
    requires forall j, k :: 0 <= j < k < |nodes| ==> nodes[j] != nodes[k]
    requires forall k :: 0 <= k < |nodes| && k + 1 != i ==> nodes[k].next == NodeAt(nodes, k + 1)
    requires i > 0 ==> nodes[i - 1].next == NodeAt(nodes, i + 1)
    ensures IsList(head, nodes[..i] + nodes[i + 1..])
  {
    var rest := nodes[..i] + nodes[i + 1..];
    forall k | 0 <= k < |rest| ensures rest[k].next == NodeAt(rest, k + 1) {
      assert rest[k] == nodes[if k < i then k else k + 1];
    }
  }

  /** The pointer surgery of remove_request, once the node before node i is known; list1 is the node passed over. */
  method Unlink(ant: Request?, list: Request?, ghost nodes: seq<Request>, ghost i: nat)
      returns (head: Request?, list1: Request)
    requires IsList(list, nodes) && i < |nodes|
    requires ant == if i == 0 then null else nodes[i - 1]
    modifies nodes
    ensures IsList(head, nodes[..i] + nodes[i + 1..]) && list1 == nodes[i]
  {
    if ant == null {
      list1 := list;
      head := list.next;
    } else {
      list1 := ant.next;
      assert list1 == nodes[i];
      ant.next := list1.next;
      head := list;
    }
    Unlinked(head, nodes, i);
  }

  lemma RemovedFds(nodes: seq<Request>, fd: int)
    requires fd in Fds(nodes)
    ensures var i := FirstIndex(Fds(nodes), fd);
            && i < |nodes| && nodes[i].client_fd == fd
            && Fds(nodes[..i] + nodes[i + 1..]) == RemoveFirst(Fds(nodes), fd)
  {}

  lemma RemovedNodes(nodes: seq<Request>, i: nat, rest: seq<Request>)
    requires i < |nodes| && rest == nodes[..i] + nodes[i + 1..]
    requires forall j, k :: 0 <= j < k < |nodes| ==> nodes[j] != nodes[k]
    ensures nodes[i] in nodes && nodes[i] !in rest && forall n :: n in rest ==> n in nodes
  {}

  /** remove_request: the first node that holds fd is unlinked and then freed, when no list node refers to it. The
      code dereferences null if there is none. */
  method RemoveRequest(fd: int, list: Request?, ghost nodes: seq<Request>)
      returns (head: Request?, freed: Request, ghost nodes': seq<Request>)
    requires IsList(list, nodes) && fd in Fds(nodes)
    modifies nodes
    ensures IsList(head, nodes')
    ensures Fds(nodes') == RemoveFirst(Fds(nodes), fd)
    ensures freed.client_fd == fd && freed in nodes && freed !in nodes'
    ensures forall n :: n in nodes' ==> n in nodes
  {
    ghost var i := FirstIndex(Fds(nodes), fd);
    RemovedFds(nodes, fd);
    nodes' := nodes[..i] + nodes[i + 1..];
    RemovedNodes(nodes, i, nodes');
    hide FirstIndex, Fds, RemoveFirst, IsList;
    var ant := SearchAntecessor(fd, list, nodes);
    head, freed := Unlink(ant, list, nodes, i);
  }
}
