// Names shared by the parts of the browser manager (apps/desktop/src/browserManager.ts).
module BrowserTypes {
  import opened Wrappers

  type ThreadId = string

  // Tabs get random ids that are never used twice; here, the next number.
  type TabId = nat

  // A runtime key: the source glues both names together with a colon.
  datatype Key = Key(thread: ThreadId, tab: TabId)

  // The page of a view of our own, of a <webview> of the renderer, of a popup window.
  datatype WebContents = Native(n: nat) | Guest(id: nat) | Popup(window: nat)

  // What a map or a set has of the other threads.
  function Others<V>(m: map<Key, V>, thread: ThreadId): map<Key, V> {
    map k | k in m && k.thread != thread :: m[k]
  }

  function OthersIn(s: set<Key>, thread: ThreadId): set<Key> {
    set k | k in s && k.thread != thread
  }

  lemma OthersChange<V>(m: map<Key, V>, key: Key, v: V)
    ensures Others(m - {key}, key.thread) == Others(m, key.thread)
    ensures Others(m[key := v], key.thread) == Others(m, key.thread)
  {
  }

  lemma OthersInChange(s: set<Key>, key: Key)
    ensures OthersIn(s - {key}, key.thread) == OthersIn(s, key.thread)
    ensures OthersIn(s + {key}, key.thread) == OthersIn(s, key.thread)
  {
  }

  // buildRuntimeKey
  function RuntimeKey(thread: string, tab: string): string {
    thread + ":" + tab
  }

  lemma {:induction false} ColonTail(a: string, tab: string, other: string)
    requires ':' !in tab && ':' !in other
    requires a + ":" + tab == ":" + other
    ensures a == "" && tab == other
  {
    var s := a + ":" + tab;
    forall i | 0 < i <= |other|
      ensures (":" + other)[i] != ':'
    {
      assert (":" + other)[i] == other[i - 1];
    }
    assert s[|a|] == ':';
    assert s[1..] == tab && (":" + other)[1..] == other;
  }

  // Tab ids have no colon, so the last colon of a key is where the tab id starts, and
  // different pairs have different keys whatever the thread ids are.
  lemma {:induction false} RuntimeKeyInjective(thread: string, tab: string, thread2: string, tab2: string)
    requires ':' !in tab && ':' !in tab2
    requires RuntimeKey(thread, tab) == RuntimeKey(thread2, tab2)
    ensures thread == thread2 && tab == tab2
  {
    var s, s2 := RuntimeKey(thread, tab), RuntimeKey(thread2, tab2);
    if thread == "" {
      assert s == ":" + tab;
      ColonTail(thread2, tab2, tab);
    } else if thread2 == "" {
      assert s2 == ":" + tab2;
      ColonTail(thread, tab, tab2);
    } else {
      assert s[0] == thread[0] && s2[0] == thread2[0];
      assert s[1..] == RuntimeKey(thread[1..], tab) && s2[1..] == RuntimeKey(thread2[1..], tab2);
      RuntimeKeyInjective(thread[1..], tab, thread2[1..], tab2);
      assert thread == [thread[0]] + thread[1..] && thread2 == [thread2[0]] + thread2[1..];
    }
  }
}
