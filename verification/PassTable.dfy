/** The pass table of several sites (internal/passes/passes.go) is one the planner's guarantees apply to. */
module PassTable {
  import opened Passes
  import opened Sorting
  import opened Planner
  import opened PlanRules
  import opened PlanOrder
  import opened DiffBalance

  /** What scanning each site gave. */
  datatype Scan = Scan(el: Elevation, link: Link, out: seq<Pass>)

  ghost predicate Scanned(scans: seq<Scan>, start: int, end: int) {
    forall i :: 0 <= i < |scans| ==> Predicted(scans[i].el, scans[i].link, start, end, scans[i].out)
  }

  ghost predicate HostsDistinct(scans: seq<Scan>) {
    forall i, j :: 0 <= i < j < |scans| ==> scans[i].link.host != scans[j].link.host
  }

  function AllPasses(scans: seq<Scan>): seq<Pass> {
    if scans == [] then [] else scans[0].out + AllPasses(scans[1..])
  }

  lemma ScannedHost(s: Scan, start: int, end: int, p: Pass)
    requires Predicted(s.el, s.link, start, end, s.out) && p in s.out
    ensures p.host == s.link.host
  {
    var spans: seq<(nat, nat)> :| Sound(s.el, s.link, start, end, s.out, spans) && Complete(s.el, start, end, spans);
    var i :| 0 <= i < |s.out| && s.out[i] == p;
    assert IsContact(s.el, s.link, start, spans[i].0, spans[i].1, s.out[i]);
  }

  lemma {:induction false} HostScanned(scans: seq<Scan>, start: int, end: int, p: Pass)
    requires Scanned(scans, start, end) && p in AllPasses(scans)
    ensures exists i :: 0 <= i < |scans| && scans[i].link.host == p.host
  {
    if p in scans[0].out {
      ScannedHost(scans[0], start, end, p);
    } else {
      HostScanned(scans[1..], start, end, p);
      var i :| 0 <= i < |scans[1..]| && scans[1..][i].link.host == p.host;
      assert scans[i + 1].link.host == p.host;
    }
  }

  lemma PredictedKeys(el: Elevation, link: Link, start: int, end: int, out: seq<Pass>)
    requires Predicted(el, link, start, end, out)
    ensures KeysDistinct(out)
  {
    forall i, j | 0 <= i < j < |out| ensures !SameKey(out[i], out[j]) {
      PredictedSound(el, link, start, end, out, i);
    }
  }

  lemma JoinKeys(a: seq<Pass>, b: seq<Pass>)
    requires KeysDistinct(a) && KeysDistinct(b) && forall p, q :: p in a && q in b ==> p.host != q.host
    ensures KeysDistinct(a + b)
  {
  }

  lemma {:induction false} AllKeys(scans: seq<Scan>, start: int, end: int)
    requires Scanned(scans, start, end) && HostsDistinct(scans)
    ensures KeysDistinct(AllPasses(scans))
  {
    if scans != [] {
      var s := scans[0];
      AllKeys(scans[1..], start, end);
      PredictedKeys(s.el, s.link, start, end, s.out);
      forall p, q | p in s.out && q in AllPasses(scans[1..]) ensures p.host != q.host {
        ScannedHost(s, start, end, p);
        HostScanned(scans[1..], start, end, q);
      }
      JoinKeys(s.out, AllPasses(scans[1..]));
    }
  }

  /** The passes of sites with distinct hosts, in any order, have distinct (host, AOS): planning over them does not
      depend on that order. */
  lemma TableIsOrderFree(scans: seq<Scan>, start: int, end: int, t: seq<Pass>)
    requires Scanned(scans, start, end) && HostsDistinct(scans) && multiset(t) == multiset(AllPasses(scans))
    ensures KeysDistinct(t) && OrderFree(t)
  {
    AllKeys(scans, start, end);
    KeysPermute(AllPasses(scans), t);
    OrderFreeIffKeyed(t);
  }
}
