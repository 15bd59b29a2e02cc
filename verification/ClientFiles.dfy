/** What the client requests: with two files it alternates between them, starting with the second. */
module ClientFiles {

  /** A request in the order of sending: the thread and the index of its file. */
  datatype Entry = Entry(thread: nat, file: nat)

  /** The change of file_index, between lock and unlock of file_comutation_mutex. */
  function Toggle(file_index: nat): nat {
    if file_index == 0 then 1 else 0
  }

  /** file_index after the next request, which uses that file. */
  function NextFile(twoFiles: bool, file_index: nat): nat {
    if twoFiles then Toggle(file_index) else 0
  }

  ghost predicate FilesInv(twoFiles: bool, file_index: nat, log: seq<Entry>) {
    && file_index == (if twoFiles then |log| % 2 else 0)
    && forall k :: 0 <= k < |log| ==> log[k].file == (if twoFiles then (k + 1) % 2 else 0)
  }

  lemma FilesKept(twoFiles: bool, file_index: nat, log: seq<Entry>, thread: nat)
    requires FilesInv(twoFiles, file_index, log)
    ensures var file := NextFile(twoFiles, file_index);
            FilesInv(twoFiles, file, log + [Entry(thread, file)])
  {}
}
