/** The open files of a device by access id (kernel/netdevmgm.c:215-235,
    kernel/fo_access.c:36). The id is the pid of the process that opens, so that one process
    with two open files has one id for both (kernel/fo_send.c:165). */
module OpenFiles {
  import opened Bytes
  import PQ = PendingQueue

  /** An open file with its pending requests. */
  datatype File = File(accessId: int, queue: seq<PQ.Entry<nat>>)

  /** The first file of the bucket with the id; a new file is put in front. */
  function FirstWith(files: seq<File>, id: int): (f: nat)
    ensures f <= |files|
    ensures forall g :: 0 <= g < f ==> files[g].accessId != id
    ensures f < |files| ==> files[f].accessId == id
  {
    if files == [] || files[0].accessId == id then 0 else 1 + FirstWith(files[1..], id)
  }

  /** ndmgm_find_acc; `available` is what down_read_trylock returns. */
  method FindAcc(available: bool, files: seq<File>, id: int) returns (f: Option<nat>)
    ensures f == if available && FirstWith(files, id) < |files| then Some(FirstWith(files, id)) else None
  {
    if available {
      var i := 0;
      while i < |files|
        invariant 0 <= i <= |files|
        invariant FirstWith(files, id) == i + FirstWith(files[i..], id)
      {
        if files[i].accessId == id {
          return Some(i);
        }
        i := i + 1;
      }
    }
    f := None;
  }

  /** Requests of all files have numbers of their own. */
  ghost predicate UniqueNumbers(files: seq<File>) {
    forall f, g, x, y
      | 0 <= f < |files| && 0 <= g < |files| && 0 <= x < |files[f].queue| && 0 <= y < |files[g].queue| ::
      files[f].queue[x].key == files[g].queue[y].key ==> f == g && x == y
  }

  /** The search for a reply: the file of its id, and the request there, with the stopper kept. */
  function Search(files: seq<File>, id: int, key: int): Option<PQ.Entry<nat>> {
    var f := FirstWith(files, id);
    if f < |files| then PQ.RotatingFind(files[f].queue, key).hit else None
  }

  /** A reply finds its request exactly when the request's file is the newest one with its id;
      for an older one it finds nothing, and the caller is left blocked. */
  lemma FoundIffNewest(files: seq<File>, f: nat, x: nat)
    requires UniqueNumbers(files) && f < |files| && x < |files[f].queue|
    ensures var e := files[f].queue[x];
            var hit := Search(files, files[f].accessId, e.key);
            && (hit == Some(e) <==> forall g :: 0 <= g < f ==> files[g].accessId != files[f].accessId)
            && (hit == Some(e) || hit == None)
  {
    var e := files[f].queue[x];
    var g := FirstWith(files, files[f].accessId);
    assert g <= f;
    var y := PQ.Position(files[g].queue, e.key);
    if g == f {
      assert y < |files[f].queue| ==> y == x;
    } else {
      assert y == |files[g].queue|;
    }
  }
}
