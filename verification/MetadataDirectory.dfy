/**
 A metadata directory as the file system sees it: a durable set of entries plus the
 namespace operations that have been issued since the last successful directory sync.
 A crash keeps any ordered subsequence of the pending operations, each rename whole.
 File contents are synced before a name is published, so an entry carries its content.
 */
module MetadataDirectory {
  import opened Prelude

  /** What a file holds: the encoding of one generation of the document, or bytes that do not parse. */
  datatype Content = Torn | Generation(n: nat)

  /** The names one document uses: `x.json`, `x.json.bak` and `x.json.<nonce>.new`. */
  datatype Name = Primary | Backup | Staging(nonce: nat)

  type Entries = map<Name, Content>

  datatype NameOp =
    | Link(name: Name, content: Content)
    | Rename(source: Name, target: Name, content: Content)
    | Remove(name: Name)

  datatype Disk = Disk(durable: Entries, pending: seq<NameOp>)

  function Apply(entries: Entries, op: NameOp): Entries {
    match op
    case Link(name, content) => entries[name := content]
    case Rename(source, target, content) => (entries - {source})[target := content]
    case Remove(name) => entries - {name}
  }

  /** The directory a running process sees: every pending operation applied. */
  function Replay(durable: Entries, pending: seq<NameOp>): Entries {
    if pending == [] then durable
    else Apply(Replay(durable, pending[..|pending| - 1]), pending[|pending| - 1])
  }

  /** Every directory a crash can leave behind. */
  ghost function Survivors(durable: Entries, pending: seq<NameOp>): set<Entries> {
    if pending == [] then {durable}
    else
      var earlier := Survivors(durable, pending[..|pending| - 1]);
      earlier + (set image | image in earlier :: Apply(image, pending[|pending| - 1]))
  }

  function Live(disk: Disk): Entries {
    Replay(disk.durable, disk.pending)
  }

  ghost function Images(disk: Disk): set<Entries> {
    Survivors(disk.durable, disk.pending)
  }

  function Issued(disk: Disk, op: NameOp): Disk {
    disk.(pending := disk.pending + [op])
  }

  function Synced(disk: Disk): Disk {
    Disk(Live(disk), [])
  }

  /**
   The meaning of `Survivors`: an image is what remains when each pending operation is
   independently kept or lost and the kept ones are applied in order.
   */
  function Kept(durable: Entries, pending: seq<NameOp>, keep: seq<bool>): Entries
    requires |keep| == |pending|
  {
    if pending == [] then durable
    else
      var last := |pending| - 1;
      var before := Kept(durable, pending[..last], keep[..last]);
      if keep[last] then Apply(before, pending[last]) else before
  }

  lemma {:induction false} SurvivorsAreSubsequences(durable: Entries, pending: seq<NameOp>, image: Entries)
    ensures image in Survivors(durable, pending)
            <==> exists keep: seq<bool> :: |keep| == |pending| && Kept(durable, pending, keep) == image
  {
    if pending == [] {
      var none: seq<bool> := [];
      assert |none| == |pending| && Kept(durable, pending, none) == durable;
    } else {
      var last := |pending| - 1;
      var front, op := pending[..last], pending[last];
      if image in Survivors(durable, front) {
        SurvivorsAreSubsequences(durable, front, image);
        var keep: seq<bool> :| |keep| == last && Kept(durable, front, keep) == image;
        assert (keep + [false])[..last] == keep;
        assert Kept(durable, pending, keep + [false]) == image;
      } else if image in Survivors(durable, pending) {
        var before :| before in Survivors(durable, front) && image == Apply(before, op);
        SurvivorsAreSubsequences(durable, front, before);
        var keep: seq<bool> :| |keep| == last && Kept(durable, front, keep) == before;
        assert (keep + [true])[..last] == keep;
        assert Kept(durable, pending, keep + [true]) == image;
      }
      forall keep: seq<bool> | |keep| == |pending| && Kept(durable, pending, keep) == image
        ensures image in Survivors(durable, pending)
      {
        var before := Kept(durable, front, keep[..last]);
        SurvivorsAreSubsequences(durable, front, before);
        assert |keep[..last]| == |front|;
      }
    }
  }

  lemma {:induction false} LiveSurvives(durable: Entries, pending: seq<NameOp>)
    ensures Replay(durable, pending) in Survivors(durable, pending)
  {
    if pending != [] {
      LiveSurvives(durable, pending[..|pending| - 1]);
    }
  }

  /** How one more operation changes the live view and the crash images. */
  lemma IssuedImages(disk: Disk, op: NameOp)
    ensures Live(Issued(disk, op)) == Apply(Live(disk), op)
    ensures Images(Issued(disk, op)) == Images(disk) + (set image | image in Images(disk) :: Apply(image, op))
    ensures Live(disk) in Images(disk)
  {
    var longer := disk.pending + [op];
    assert longer[..|longer| - 1] == disk.pending;
    LiveSurvives(disk.durable, disk.pending);
  }

  /** After a successful sync the only crash image is the live directory. */
  lemma SyncedImages(disk: Disk)
    ensures Live(Synced(disk)) == Live(disk)
    ensures Images(Synced(disk)) == {Live(disk)}
  {
  }
}
