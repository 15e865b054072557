/** Header pages and the listeners that are in the middle of a list: whether the page a listener is due still exists. */
module OggMount {
  import opened Octets
  import opened Links
  import opened OggPages
  import opened OggHeaders
  import opened OggSending

  /** A listener in the middle of the list of the data page it holds is due a page that has not been freed. */
  lemma DuePageAlive(s: State, l: Listener, d: nat)
    requires s.Valid() && d in s.belongs && s.belongs[d] < |s.lists|
    requires !l.headersSent && l.OnTrack() && l.due == s.lists[s.belongs[d]]
    ensures d in s.associated && First(l.due) == Some(s.associated[d]) && Chain(s.heap, l.due)
    ensures l.headerPage.Some? ==> l.headerPage.value < |s.heap| && s.heap[l.headerPage.value].freed == 0
  {
    hide Fulls, Chain, Users, Members, Current, Within;
    var b := s.belongs[d];
    UserOwns(s.belongs, d, |s.lists| - 1);
    ListAt(s.heap, s.lists, s.home, s.belongs, b);
    Alive(s.heap, s.home, s.belongs, |s.lists| - 1, s.lists[b], b);
  }

  /** One that lets go of its data page, as on a move to another mount, may be due a page that has been. */
  method DuePageFreed() returns (s: State, l: Listener)
    ensures s.Valid() && l.Valid() && !l.headersSent && l.headerPage == Some(0)
    ensures |s.heap| == 1 && s.heap[0].freed == 1
  {
    s := SharedPage();
    hide Fulls, Taken, Attempts, Law, Linked, Associated, Current;
    l := new Listener();
    assert Refuses(s.heap, (k: nat) => 0, [0]);
    var _ := l.Write(s.heap, Some(0), [3], (k: nat) => 0, 0, [0], []);
    s.FreeHeaders();
    s.Drop(0);
    Deserted(s, 0);
  }

  /** With no header pages and no data page that has any, every page there was is freed. */
  lemma Deserted(s: State, a: nat)
    requires s.Valid() && s.associated == map[] && s.headerPages.None? && a < |s.heap|
    ensures s.heap[a].freed == 1
  {
    hide Chain;
    s.PageLife(a);
    assert Members(s.home, s.lists[|s.lists| - 1], |s.lists| - 1);
  }
}
