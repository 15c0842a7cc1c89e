/** The record-structured seed filter of the browser site (`prefer_validated_browser_seed_advertisement`). */
module SeedAdvertisement {
  import opened Sequences
  import opened BrowserSeeds

  datatype SeedRecord = SeedRecord(peerId: string, multiaddrs: seq<string>)

  datatype Transport = WebRtcDirect | WebTransport | WssFallback

  function Multiaddrs(seeds: seq<SeedRecord>): seq<seq<string>> {
    Map(seeds, (record: SeedRecord) => record.multiaddrs)
  }

  /** All addresses of an advertisement, in order. */
  function AllAddresses(seeds: seq<SeedRecord>): seq<string> {
    Flatten(Multiaddrs(seeds))
  }

  function Narrow(record: SeedRecord): SeedRecord {
    record.(multiaddrs := Filter(record.multiaddrs, IsWebrtcDirectSeed))
  }

  predicate HasAddress(record: SeedRecord) {
    record.multiaddrs != []
  }

  /** A narrowed record is the same peer's, with its webrtc-direct addresses only, in their order. */
  lemma NarrowMeans(record: SeedRecord, before: seq<string>, after: seq<string>, url: string)
    requires record.multiaddrs == before + [url] + after
    ensures Narrow(record).peerId == record.peerId
    ensures Narrow(record).multiaddrs ==
              Filter(before, IsWebrtcDirectSeed) + (if IsWebrtcDirectSeed(url) then [url] else [])
              + Filter(after, IsWebrtcDirectSeed)
  {
    FilterAround(before, url, after, IsWebrtcDirectSeed);
  }

  lemma {:induction false} NarrowedAddresses(seeds: seq<SeedRecord>)
    ensures AllAddresses(Map(seeds, Narrow)) == Filter(AllAddresses(seeds), IsWebrtcDirectSeed)
  {
    if seeds != [] {
      NarrowedAddresses(seeds[1..]);
      FilterConcat(seeds[0].multiaddrs, AllAddresses(seeds[1..]), IsWebrtcDirectSeed);
    }
  }

  lemma AddressesCons(first: SeedRecord, rest: seq<SeedRecord>)
    ensures AllAddresses([first] + rest) == first.multiaddrs + AllAddresses(rest)
  {
    assert ([first] + rest)[1..] == rest;
  }

  lemma {:induction false} EmptyRecordsHoldNothing(seeds: seq<SeedRecord>)
    ensures AllAddresses(Filter(seeds, HasAddress)) == AllAddresses(seeds)
  {
    if seeds != [] {
      EmptyRecordsHoldNothing(seeds[1..]);
      var rest := Filter(seeds[1..], HasAddress);
      AddressesCons(seeds[0], rest);
      AddressesCons(seeds[0], seeds[1..]);
      assert seeds == [seeds[0]] + seeds[1..];
      assert [] + rest == rest;
    }
  }

  lemma KeptAddresses(seeds: seq<SeedRecord>)
    ensures AllAddresses(Filter(Map(seeds, Narrow), HasAddress)) == Filter(AllAddresses(seeds), IsWebrtcDirectSeed)
    ensures forall record :: record in Filter(Map(seeds, Narrow), HasAddress) ==> HasAddress(record)
  {
    NarrowedAddresses(seeds);
    EmptyRecordsHoldNothing(Map(seeds, Narrow));
    FilterMembers(Map(seeds, Narrow), HasAddress);
  }

  lemma PreferKept(seeds: seq<SeedRecord>)
    requires exists url :: url in AllAddresses(seeds) && IsWebrtcDirectSeed(url)
    ensures var kept := Filter(Map(seeds, Narrow), HasAddress);
            AllAddresses(kept) == Prefer(AllAddresses(seeds)) && forall record :: record in kept ==> HasAddress(record)
  {
    KeptAddresses(seeds);
  }

  class Advertisement {
    var seeds: seq<SeedRecord>
    var preferred: seq<Transport>
    var allowFallbackWss: bool

    /** Flattened, the advertisement's filter is the list filter on the flattened seeds. */
    method PreferValidated()
      modifies this
      ensures AllAddresses(seeds) == Prefer(AllAddresses(old(seeds)))
      ensures (forall url :: url in AllAddresses(old(seeds)) ==> !IsWebrtcDirectSeed(url)) ==>
                seeds == old(seeds) && preferred == old(preferred) && allowFallbackWss == old(allowFallbackWss)
      ensures (exists url :: url in AllAddresses(old(seeds)) && IsWebrtcDirectSeed(url)) ==>
                && preferred == [WebRtcDirect]
                && !allowFallbackWss
                && seeds == Filter(Map(old(seeds), Narrow), HasAddress)
                && forall record :: record in seeds ==> HasAddress(record)
    {
      var addresses := AllAddresses(seeds);
      if forall url :: url in addresses ==> !IsWebrtcDirectSeed(url) {
        return;
      }
      ghost var before := seeds;
      for i := 0 to |seeds|
        invariant |seeds| == |before|
        invariant forall k :: 0 <= k < |seeds| ==> seeds[k] == if k < i then Narrow(before[k]) else before[k]
      {
        seeds := seeds[i := Narrow(seeds[i])];
      }
      assert seeds == Map(before, Narrow);
      PreferKept(before);
      seeds := Filter(seeds, HasAddress);
      preferred := [WebRtcDirect];
      allowFallbackWss := false;
    }
  }
}
