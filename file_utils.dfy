/**
 * The uploads directory and `deleteFiles`, which removes the stored copies of a list of
 * attachments one at a time, skipping missing files and carrying on past a failed removal.
 */
module FileUtils {
  import opened Wrappers
  import opened Strings
  import opened Content
  import ServerConfig

  /**
   * The stored name a URL points to: the last '/'-separated segment of its path, the path
   * ending at the first '?' or '#'.
   */
  function Basename(url: string): (r: string)
    ensures '/' !in r && '?' !in r && '#' !in r
  {
    var path := Before(url, {'?', '#'});
    var r := LastSegment(path, '/');
    assert EndsWith(path, r);
    assert forall k :: 0 <= k < |r| ==> r[k] == path[|path| - |r| + k];
    r
  }

  /** The stored names of a list of attachments. */
  function Names(files: seq<Attachment>): (r: set<string>)
    ensures forall k :: 0 <= k < |files| ==> Basename(files[k].url) in r
    ensures forall n :: n in r ==> exists k :: 0 <= k < |files| && Basename(files[k].url) == n
  {
    if files == [] then {}
    else
      var rest := Names(files[1..]);
      assert forall k :: 1 <= k < |files| ==> files[k] == files[1..][k - 1];
      {Basename(files[0].url)} + rest
  }

  /**
   * The directory after `deleteFiles(files)`: every named file that exists and whose removal
   * does not fail is gone; `failing` holds the names whose `unlinkSync` throws. A missing
   * list (`null`, or something other than an array) changes nothing.
   */
  function AfterDelete(stored: set<string>, files: Option<seq<Attachment>>, failing: set<string>): set<string> {
    match files
    case None => stored
    case Some(list) => stored - (Names(list) - failing)
  }

  /** The uploads directory as a mutable set of stored file names. */
  class Uploads {
    var stored: set<string>

    constructor (initial: set<string>)
      ensures stored == initial
    {
      stored := initial;
    }

    /** `deleteFiles(files)`; removal of a name in `failing` throws and is caught. */
    method DeleteFiles(files: Option<seq<Attachment>>, failing: set<string>)
      modifies this
      ensures stored == AfterDelete(old(stored), files, failing)
    {
      if files.None? || |files.value| == 0 {
        return;
      }
      var list := files.value;
      var k := 0;
      while k < |list|
        invariant k <= |list|
        invariant stored == old(stored) - (Names(list[..k]) - failing)
      {
        var name := Basename(list[k].url);
        NamesStep(list, k);
        DeleteStep(old(stored), Names(list[..k]), failing, name, stored);
        if name in stored {
          if name !in failing {
            stored := stored - {name};
          }
        }
        k := k + 1;
      }
      assert list[..k] == list;
    }
  }

  lemma NamesStep(list: seq<Attachment>, k: nat)
    requires k < |list|
    ensures Names(list[..k + 1]) == Names(list[..k]) + {Basename(list[k].url)}
  {
    var one := [list[k]];
    assert list[..k + 1] == list[..k] + one;
    assert one[0] == list[k] && one[1..] == [];
    NamesConcat(list[..k], one);
  }

  /** The names of two lists of attachments put together are the names of each. */
  lemma {:induction false} NamesConcat(a: seq<Attachment>, b: seq<Attachment>)
    ensures Names(a + b) == Names(a) + Names(b)
  {
    if a == [] {
      assert a + b == b;
    } else {
      assert (a + b)[0] == a[0] && (a + b)[1..] == a[1..] + b;
      NamesConcat(a[1..], b);
    }
  }

  /** One more name handled: removed when present and its removal does not fail. */
  lemma DeleteStep(original: set<string>, done: set<string>, failing: set<string>, name: string, stored: set<string>)
    requires stored == original - (done - failing)
    ensures (if name in stored && name !in failing then stored - {name} else stored) ==
      original - ((done + {name}) - failing)
  {
  }

  /** Only named files go, and a named file stays only when it was missing or its removal failed. */
  lemma DeleteOnlyNamed(stored: set<string>, list: seq<Attachment>, failing: set<string>, n: string)
    ensures var after := AfterDelete(stored, Some(list), failing);
      after <= stored &&
      (n in stored && n !in Names(list) ==> n in after) &&
      (n in stored && n in after ==> n !in Names(list) || n in failing)
  {
  }

  /** An empty list leaves the directory as it was. */
  lemma EmptyListNoEffect(stored: set<string>, failing: set<string>)
    ensures AfterDelete(stored, Some([]), failing) == stored
  {
  }

  /**
   * The URL built for a stored upload leads back to its name: `deleteFiles` finds the
   * copy that the create handlers stored, whenever the base URL holds no '?' or '#'
   * and the name no '/', '?' or '#'.
   */
  lemma {:induction false} BasenameOfUploadUrl(baseUrl: string, name: string)
    requires '?' !in baseUrl && '#' !in baseUrl
    requires '/' !in name && '?' !in name && '#' !in name
    ensures Basename(ServerConfig.GetFullUrl(baseUrl, "uploads/" + name)) == name
  {
    var path := "uploads/" + name;
    assert path[..1] == "u";
    var url := ServerConfig.GetFullUrl(baseUrl, path);
    assert url == (baseUrl + "/uploads/") + name;
    BeforeAbsent(url, {'?', '#'});
    LastSegmentAfter(baseUrl + "/uploads", name, '/');
    assert (baseUrl + "/uploads") + ['/'] + name == url;
  }

  /** Text without any stop character is kept whole. */
  lemma {:induction false} BeforeAbsent(s: string, stops: set<char>)
    requires forall k :: 0 <= k < |s| ==> s[k] !in stops
    ensures Before(s, stops) == s
  {
    if s != [] {
      BeforeAbsent(s[1..], stops);
      assert s == [s[0]] + s[1..];
    }
  }

  /** The last segment after a separator is the text following it, when that has no separator. */
  lemma {:induction false} LastSegmentAfter(a: string, b: string, sep: char)
    requires sep !in b
    ensures LastSegment(a + [sep] + b, sep) == b
  {
    var s := a + [sep] + b;
    if b != [] {
      var b' := b[..|b| - 1];
      assert s[..|s| - 1] == a + [sep] + b';
      assert sep !in b';
      LastSegmentAfter(a, b', sep);
      assert b == b' + [b[|b| - 1]];
    }
  }
}
