/** The shared variables of the server, with the queue as the linked list of lists.h. Each method is one of
    the accesses of module Server, done in place. */
module ServerState {
  import opened Lists
  import opened Server

  class Shared {
    var requests: Request?
    ghost var nodes: seq<Request>
    const threads: array<Counts>
    var stat_req_arrival_count: nat
    var stat_req_dispatch_count: nat
    var stat_req_completed_count: nat

    ghost predicate Valid()
      reads this, nodes
    {
      IsList(requests, nodes)
    }

    ghost function Abs(): Data
      reads this, threads
    {
      Data(Fds(nodes), threads[..], stat_req_arrival_count, stat_req_dispatch_count, stat_req_completed_count)
    }

    /** create_threads; the list is taken to start empty. */
    constructor (max_threads: nat)
      ensures Valid() && fresh(threads) && Abs() == Init(Config(max_threads, 0)).data
    {
      requests, nodes := null, [];
      threads := new Counts[max_threads](_ => Counts(0, 0, 0));
      stat_req_arrival_count, stat_req_dispatch_count, stat_req_completed_count := 0, 0, 0;
    }

    method ReadSize() returns (list_size: nat)
      requires Valid()
      ensures list_size == |Abs().queue|
    {
      list_size := SizeOfList(requests, nodes);
    }

    method AppendRequest(client_fd: int)
      requires Valid()
      modifies this`requests, this`nodes, nodes
      ensures Valid() && Abs() == Append(old(Abs()), client_fd)
      ensures forall n :: n in nodes ==> n in old(nodes) || fresh(n)
    {
      hide IsList, Fds;
      requests, nodes := AppendRight(client_fd, requests, nodes, true);
    }

    method CountArrivals()
      requires Valid()
      modifies this`stat_req_arrival_count
      ensures Valid() && Abs() == CountArrival(old(Abs()))
    {
      stat_req_arrival_count := stat_req_arrival_count + 1;
    }

    method CountContents(thread_index: nat, outcome: Outcome)
      requires Valid() && thread_index < threads.Length
      modifies threads
      ensures Valid() && Abs() == CountContent(old(Abs()), thread_index, outcome)
    {
      var t := threads[thread_index];
      match outcome {
        case Refused =>
        case Static => threads[thread_index] := t.(static_content := t.static_content + 1);
        case Dynamic => threads[thread_index] := t.(dynamic_content := t.dynamic_content + 1);
      }
    }

    method RemoveHead(client_fd: int)
      requires Valid() && client_fd in Abs().queue
      modifies this`requests, this`nodes, nodes
      ensures Valid() && Abs() == Remove(old(Abs()), client_fd)
      ensures forall n :: n in nodes ==> n in old(nodes)
    {
      hide IsList, Fds, RemoveFirst;
      var freed;
      requests, freed, nodes := RemoveRequest(client_fd, requests, nodes);
    }

    method ReadHead() returns (client_fd: int)
      requires Valid() && Abs().queue != []
      ensures client_fd == Abs().queue[0]
    {
      client_fd := requests.client_fd;
    }

    /** The body of the loop of thread_startup, between lock and unlock. */
    method ServeNext(position: nat, outcome: Outcome) returns (served: bool, client_fd: int)
      requires Valid() && position < threads.Length
      modifies this, threads, nodes
      ensures Valid() && served == (old(Abs()).queue != [])
      ensures !served ==> Abs() == old(Abs())
      ensures served ==> client_fd == old(Abs()).queue[0]
      ensures served ==> Abs() == AfterService(old(Abs()), position, outcome)
    {
      hide IsList, Fds, RemoveFirst;
      HeadRemoved(Abs().queue);
      served, client_fd := false, 0;
      var list_is_empty := IsListEmpty(requests, nodes);
      if !list_is_empty {
        served := true;
        stat_req_dispatch_count := stat_req_dispatch_count + 1;
        var thread := threads[position];
        threads[position] := thread.(executions := thread.executions + 1);
        client_fd := ReadHead();
        CountContents(position, outcome);
        if !outcome.Refused? {
          stat_req_completed_count := stat_req_completed_count + 1;
        }
        RemoveHead(client_fd);
      }
    }
  }

  lemma HeadRemoved(queue: seq<int>)
    ensures queue != [] ==> RemoveFirst(queue, queue[0]) == queue[1..]
  {
    if queue != [] {
      assert FirstIndex(queue, queue[0]) == 0;
      assert queue[..0] + queue[1..] == queue[1..];
    }
  }
}
