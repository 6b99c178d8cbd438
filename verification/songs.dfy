/** The song configuration: the hand-written list of audio files with their
titles and artists, and the playable track list derived from it by turning each
file name into a path under the site's audio folder.
 */
module Songs {

  /** One hand-written entry: a file name in the audio folder plus labels. */
  datatype SongEntry = SongEntry(filename: string, title: string, artist: string)

  /** One playable track as the player consumes it. */
  datatype Song = Song(src: string, title: string, artist: string)

  datatype Option<T> = None | Some(value: T)

  /** The public folder every configured file is served from. */
  const SongFolder: string := "/my-song.mp3/"

  /** The track an entry stands for: the file under the audio folder, with the
      labels copied over. */
  function Resolve(e: SongEntry): (s: Song)
    ensures |s.src| == |SongFolder| + |e.filename|
    ensures s.src[..|SongFolder|] == SongFolder && s.src[|SongFolder|..] == e.filename
    ensures s.title == e.title && s.artist == e.artist
  {
    Song(SongFolder + e.filename, e.title, e.artist)
  }

  /** The entry a track came from, when its path lies in the audio folder. */
  function EntryOf(s: Song): (r: Option<SongEntry>)
    ensures r.Some? <==> (|SongFolder| <= |s.src| && s.src[..|SongFolder|] == SongFolder)
    ensures r.Some? ==> r.value.title == s.title && r.value.artist == s.artist
    ensures r.Some? ==> Resolve(r.value) == s
  {
    if |SongFolder| <= |s.src| && s.src[..|SongFolder|] == SongFolder
    then Some(SongEntry(s.src[|SongFolder|..], s.title, s.artist))
    else None
  }

  /** Resolving and recovering an entry loses nothing. */
  lemma EntryOfResolve(e: SongEntry)
    ensures EntryOf(Resolve(e)) == Some(e)
  {
    var s := Resolve(e);
    assert s.src[|SongFolder|..] == e.filename;
  }

  /** The derived track list: one track per entry, in the same order. */
  function ResolveAll(es: seq<SongEntry>): (r: seq<Song>)
    ensures |r| == |es|
    ensures forall k :: 0 <= k < |es| ==>
      && r[k].src == SongFolder + es[k].filename
      && r[k].title == es[k].title
      && r[k].artist == es[k].artist
  {
    if es == [] then []
    else [Resolve(es[0])] + ResolveAll(es[1..])
  }

  /** Deriving the list commutes with appending entries. */
  lemma {:induction false} ResolveAllAppend(a: seq<SongEntry>, b: seq<SongEntry>)
    ensures ResolveAll(a + b) == ResolveAll(a) + ResolveAll(b)
  {
    if a != [] {
      var ab := a + b;
      assert ab[0] == a[0] && ab[1..] == a[1..] + b;
      ResolveAllAppend(a[1..], b);
      calc {
        ResolveAll(ab);
        [Resolve(a[0])] + ResolveAll(a[1..] + b);
        [Resolve(a[0])] + (ResolveAll(a[1..]) + ResolveAll(b));
        ([Resolve(a[0])] + ResolveAll(a[1..])) + ResolveAll(b);
      }
    }
  }

  /** Each track of the derived list gives back its own entry, so two entry lists
      with the same derived list are equal. */
  lemma ResolveAllInjective(a: seq<SongEntry>, b: seq<SongEntry>)
    requires ResolveAll(a) == ResolveAll(b)
    ensures a == b
  {
    forall k | 0 <= k < |a| ensures a[k] == b[k] {
      EntryOfResolve(a[k]);
      EntryOfResolve(b[k]);
      assert Resolve(a[k]) == ResolveAll(a)[k];
    }
  }

  /** The configured entries, in the order they are listed. */
  const MySongs: seq<SongEntry> := [
    SongEntry("song1.mp3", "Inside Outside", "Mac Miller"),
    SongEntry("song2.mp3", "The Modern Age", "The Strokes"),
    SongEntry("song3.mp3", "VeLD\U{00C3}", "Bad Bunny"),
    SongEntry("song4.mp3", "Breath (In The Air)", "Pink Floyd"),
    SongEntry("song5.mp3", "Reborn", "Kanye West")
  ]

  /** The track list the site hands to the player. */
  const ShippedSongs: seq<Song> := ResolveAll(MySongs)

  /** The shipped list has five playable tracks, so the player's skip path is
      reachable; the first one is what the player starts on. */
  lemma ShippedSongsFacts()
    ensures |ShippedSongs| == 5
    ensures ShippedSongs[0] == Song("/my-song.mp3/song1.mp3", "Inside Outside", "Mac Miller")
    ensures ShippedSongs[4] == Song("/my-song.mp3/song5.mp3", "Reborn", "Kanye West")
    ensures forall k :: 0 <= k < |ShippedSongs| ==> ShippedSongs[k].src != ""
  {
    var es := MySongs;
    assert |es| == 5;
    assert es[0] == SongEntry("song1.mp3", "Inside Outside", "Mac Miller");
    assert es[4] == SongEntry("song5.mp3", "Reborn", "Kanye West");
    assert SongFolder + "song1.mp3" == "/my-song.mp3/song1.mp3";
    assert SongFolder + "song5.mp3" == "/my-song.mp3/song5.mp3";
  }
}
