/**
 * The `ETabla` player object. Browser audio objects are reduced to whether a
 * handle is present: `taalSource` for the tabla buffer source, `intervalActive`
 * for the matra interval timer, `tanpuraAudio` for the tanpura element (kept
 * with its url), and `audioBufferLoaded` for the decoded tabla buffer.
 * `tanpuraVoices` counts the tanpura elements that are sounding, which is
 * what a listener hears and what the handle alone does not capture.
 */
module Player {
  import opened Wrappers
  import opened Text
  import opened Assoc
  import ObjectKeys
  import Catalog
  import opened Policy

  /** The `tanpuraToggle` checkbox on the page: absent, or present with its state. */
  datatype Toggle = Missing | Present(checked: bool)

  class ETabla {
    var audioFiles: Catalog.AudioFiles
    var audioBufferLoaded: bool
    var currentTaal: string
    var currentBpm: int
    var currentKey: string
    var matrasCount: nat
    var matrasIndex: MatraIndex
    var intervalActive: bool
    var taalSource: bool
    var tanpuraAudio: Option<string>
    var tanpuraVoices: nat

    /** The catalog has the shape the lookups need, and a tanpura handle stands for a sounding element. */
    ghost predicate Valid()
      reads this
    {
      Catalog.Shaped(audioFiles) && (tanpuraAudio.Some? ==> tanpuraVoices >= 1)
    }

    /** No buffer, no tabla source, no timer, matra display at 0: the state every handler keeps. */
    ghost predicate Dormant()
      reads this
    {
      !audioBufferLoaded && !taalSource && !intervalActive && matrasIndex == Index(0)
    }

    /** The restart guard `this.audioBuffer && this.intervalId` of the change handlers. */
    ghost predicate RestartGuard()
      reads this
    {
      audioBufferLoaded && intervalActive
    }

    /** Exactly the tanpura the handle refers to is sounding. */
    ghost predicate SingleDrone()
      reads this
    {
      tanpuraVoices == if tanpuraAudio.Some? then 1 else 0
    }

    constructor()
      ensures audioFiles == [] && !audioBufferLoaded
      ensures currentTaal == "teentaal" && currentBpm == 150 && currentKey == "Gs"
      ensures matrasCount == 16 && matrasIndex == Index(0) && !intervalActive
      ensures !taalSource && tanpuraAudio == None && tanpuraVoices == 0
      ensures Valid() && Dormant() && SingleDrone() && !RestartGuard()
    {
      audioBufferLoaded := false;
      currentTaal := "teentaal";
      currentBpm := 150;
      currentKey := "Gs";
      matrasCount := 16;
      matrasIndex := Index(0);
      intervalActive := false;
      audioFiles := [];
      taalSource := false;
      tanpuraAudio := None;
      tanpuraVoices := 0;
    }

    /** The page's start-up: the catalog generateAudioFiles builds from the manifest. */
    method SetCatalog(fileList: seq<string>)
      requires Valid()
      modifies this`audioFiles
      ensures Valid()
      ensures audioFiles == Catalog.BuildCatalog(fileList)
    {
      var warnings;
      audioFiles, warnings := Catalog.GenerateAudioFiles(fileList);
      Catalog.BuildCatalogWellFormed(fileList);
      Catalog.WellFormedShaped(audioFiles);
    }

    method StopTanpura()
      requires Valid()
      modifies this`tanpuraAudio, this`tanpuraVoices
      ensures Valid() && tanpuraAudio == None
      ensures tanpuraVoices == if old(tanpuraAudio).Some? then old(tanpuraVoices) - 1 else old(tanpuraVoices)
      ensures old(SingleDrone()) ==> SingleDrone() && tanpuraVoices == 0
    {
      if tanpuraAudio.Some? {
        tanpuraVoices := tanpuraVoices - 1;
        tanpuraAudio := None;
      }
    }

    method PlayTanpura()
      requires Valid()
      modifies this`tanpuraAudio, this`tanpuraVoices
      ensures Valid() && tanpuraAudio == Some(TanpuraUrl(currentKey))
      ensures tanpuraVoices == (if old(tanpuraAudio).Some? then old(tanpuraVoices) - 1 else old(tanpuraVoices)) + 1
      ensures old(SingleDrone()) ==> SingleDrone()
    {
      StopTanpura();
      var url := TanpuraUrl(currentKey);
      tanpuraAudio := Some(url);
      tanpuraVoices := tanpuraVoices + 1;
    }

    /** The tanpura checkbox's change listener. */
    method ToggleTanpura(checked: bool)
      requires Valid()
      modifies this`tanpuraAudio, this`tanpuraVoices
      ensures Valid()
      ensures tanpuraAudio == if checked then Some(TanpuraUrl(currentKey)) else None
      ensures tanpuraVoices == (if old(tanpuraAudio).Some? then old(tanpuraVoices) - 1 else old(tanpuraVoices)) + (if checked then 1 else 0)
      ensures old(SingleDrone()) ==> SingleDrone()
    {
      if checked {
        PlayTanpura();
      } else {
        StopTanpura();
      }
    }

    method StopMatraCounter()
      modifies this`intervalActive
      ensures !intervalActive
    {
      intervalActive := false;
    }

    method StartMatraCounter()
      modifies this`currentBpm, this`matrasIndex, this`intervalActive
      ensures currentBpm == StartBpm(old(currentBpm)) && currentBpm != 0
      ensures matrasIndex == Index(1) && intervalActive
    {
      if currentBpm == 0 {
        currentBpm := 120;
      }
      matrasIndex := Index(1);
      intervalActive := true;
    }

    /** One firing of the matra interval. */
    method Tick()
      requires intervalActive
      modifies this`matrasIndex
      ensures matrasIndex == NextMatra(old(matrasIndex), matrasCount)
      ensures matrasCount > 0 && old(matrasIndex).Index? && old(matrasIndex).n >= 0 ==>
                matrasIndex.Index? && 1 <= matrasIndex.n <= matrasCount
      ensures matrasCount == 0 ==> matrasIndex == NaN
    {
      matrasIndex := NextMatra(matrasIndex, matrasCount);
    }

    /** The effective stopTaal: the tabla source and the timer are gone, the display is back at 0; the tanpura is untouched. */
    method StopTaal()
      modifies this`taalSource, this`intervalActive, this`matrasIndex
      ensures !taalSource && !intervalActive && matrasIndex == Index(0)
      ensures !audioBufferLoaded ==> Dormant()
    {
      taalSource := false;
      StopMatraCounter();
      matrasIndex := Index(0);
    }

    /**
     * updateKeyDisplay: re-pins the key and returns the options of the key
     * dropdown, among which the pinned key is (so `keySelect.value` selects it).
     */
    method UpdateKeyDisplay() returns (options: seq<SelectOption>)
      requires Valid()
      modifies this`currentKey
      ensures audioFiles == old(audioFiles) && currentTaal == old(currentTaal)
      ensures currentKey == PinnedKey(audioFiles, currentTaal, old(currentKey))
      ensures Get(audioFiles, currentTaal).None? ==> options == []
      ensures Get(audioFiles, currentTaal).Some? ==>
                options == KeyOptions(AvailableKeys(audioFiles, currentTaal)) && currentKey in AvailableKeys(audioFiles, currentTaal)
    {
      var files, taalKey, key := audioFiles, currentTaal, currentKey;
      if Get(files, taalKey).None? {
        options := [];
        return;
      }
      var availableKeys := AvailableKeys(files, taalKey);
      AvailableKeysOffered(files, taalKey);
      if key !in availableKeys {
        key := if availableKeys[0] != [] then availableKeys[0] else key;
      }
      currentKey := key;
      assert audioFiles == files && currentTaal == taalKey;
      options := KeyOptions(availableKeys);
    }

    /** The key-pinning part of loadAudio (apps.js:140-191), which runs only when the page has the tanpura checkbox. */
    method PinOnLoad(toggle: Toggle)
      requires Valid()
      modifies this`currentKey
      ensures currentKey == if toggle.Missing? then old(currentKey) else PinnedKey(audioFiles, currentTaal, old(currentKey))
    {
      if toggle.Missing? {
        return;
      }
      var files, taalKey, key := audioFiles, currentTaal, currentKey;
      if Get(files, taalKey).Some? {
        var availableKeys := AvailableKeys(files, taalKey);
        if |availableKeys| > 0 {
          if key !in availableKeys {
            key := availableKeys[0];
          }
          assert key == PinKeyOnLoad(availableKeys, old(currentKey));
          PinnedKeyStable(files, taalKey, old(currentKey));
          ghost var target := PinnedKey(files, taalKey, old(currentKey));
          assert PinnedKey(files, taalKey, key) == target;
          currentKey := key;
          var _ := UpdateKeyDisplay();
          assert currentKey == target;
        }
      }
    }

    /** loadAudio as written: it drops the tanpura handle without pausing the element. */
    method LoadAudio(toggle: Toggle)
      requires Valid()
      modifies this`tanpuraAudio, this`currentKey
      ensures Valid() && tanpuraAudio == None
      ensures currentKey == if toggle.Missing? then old(currentKey) else PinnedKey(audioFiles, currentTaal, old(currentKey))
    {
      tanpuraAudio := None;
      PinOnLoad(toggle);
    }

    /** The end of playTaal: with no decoded buffer it returns; otherwise the source starts and the matra counter with it. */
    method StartIfLoaded()
      requires Valid()
      modifies this`taalSource, this`intervalActive, this`currentBpm, this`matrasIndex
      ensures Valid()
      ensures !audioBufferLoaded ==> unchanged(this)
      ensures audioBufferLoaded ==> taalSource && intervalActive && matrasIndex == Index(1) && currentBpm == StartBpm(old(currentBpm))
    {
      if !audioBufferLoaded {
        return;
      }
      taalSource := true;
      StartMatraCounter();
    }

    /**
     * The effective playTaal: stop, reload, and with no decoded buffer return
     * in the stopped state. Because of loadAudio the tanpura handle is gone
     * while its element keeps sounding.
     */
    method PlayTaal(toggle: Toggle)
      requires Valid()
      modifies this`taalSource, this`intervalActive, this`matrasIndex, this`tanpuraAudio, this`currentKey, this`currentBpm
      ensures Valid()
      ensures tanpuraAudio == None && tanpuraVoices == old(tanpuraVoices)
      ensures currentKey == if toggle.Missing? then old(currentKey) else PinnedKey(audioFiles, currentTaal, old(currentKey))
      ensures !audioBufferLoaded ==> Dormant() && currentBpm == old(currentBpm)
      ensures audioBufferLoaded ==> taalSource && intervalActive && matrasIndex == Index(1) && currentBpm == StartBpm(old(currentBpm))
    {
      StopTaal();
      LoadAudio(toggle);
      StartIfLoaded();
    }

    /** playTaal with loadAudio's handle reset left out: whatever tanpura plays keeps its handle. */
    method PlayTaalKeepingTanpura(toggle: Toggle)
      requires Valid()
      modifies this`taalSource, this`intervalActive, this`matrasIndex, this`currentKey, this`currentBpm
      ensures Valid()
      ensures currentKey == if toggle.Missing? then old(currentKey) else PinnedKey(audioFiles, currentTaal, old(currentKey))
      ensures !audioBufferLoaded ==> Dormant() && currentBpm == old(currentBpm)
      ensures audioBufferLoaded ==> taalSource && intervalActive && matrasIndex == Index(1) && currentBpm == StartBpm(old(currentBpm))
    {
      StopTaal();
      PinOnLoad(toggle);
      StartIfLoaded();
    }

    /**
     * `this.stopTaal(); this.playTaal();` of the change handlers. playTaal's
     * loadAudio drops the tanpura handle, whatever tanpura is sounding.
     */
    method Restart(toggle: Toggle)
      requires Valid()
      modifies this`taalSource, this`intervalActive, this`matrasIndex, this`tanpuraAudio, this`currentKey, this`currentBpm
      ensures Valid()
      ensures tanpuraAudio == None
      ensures currentKey == if toggle.Missing? then old(currentKey) else PinnedKey(audioFiles, currentTaal, old(currentKey))
      ensures !audioBufferLoaded ==> Dormant() && currentBpm == old(currentBpm)
      ensures audioBufferLoaded ==> taalSource && intervalActive && matrasIndex == Index(1) && currentBpm == StartBpm(old(currentBpm))
    {
      StopTaal();
      PlayTaal(toggle);
    }

    /** `if (this.audioBuffer && this.intervalId) { this.stopTaal(); this.playTaal(); }` of the change handlers. */
    method RestartIfPlaying(toggle: Toggle)
      requires Valid()
      modifies this`taalSource, this`intervalActive, this`matrasIndex, this`tanpuraAudio, this`currentKey, this`currentBpm
      ensures Valid()
      ensures old(RestartGuard()) ==>
                && tanpuraAudio == None && taalSource && intervalActive && matrasIndex == Index(1)
                && currentBpm == StartBpm(old(currentBpm))
      ensures !old(RestartGuard()) ==>
                && tanpuraAudio == old(tanpuraAudio) && currentBpm == old(currentBpm) && taalSource == old(taalSource)
                && intervalActive == old(intervalActive) && matrasIndex == old(matrasIndex)
      ensures currentKey == if old(RestartGuard()) && toggle.Present? then PinnedKey(audioFiles, currentTaal, old(currentKey)) else old(currentKey)
    {
      if audioBufferLoaded && intervalActive {
        Restart(toggle);
      }
    }

    /** The first half of the taal listener: the new taal, its beat count, and the key pinned to it. */
    method SetTaal(taal: string)
      requires Valid()
      modifies this`currentTaal, this`matrasCount, this`currentKey
      ensures Valid()
      ensures currentTaal == taal && matrasCount == MatrasFor(taal)
      ensures currentKey == PinnedKey(audioFiles, taal, old(currentKey))
    {
      currentTaal := taal;
      matrasCount := MatrasFor(taal);
      var _ := UpdateKeyDisplay();
    }

    /** The taal dropdown's change listener. */
    method SelectTaal(value: string, toggle: Toggle)
      requires Valid()
      modifies this`currentTaal, this`matrasCount, this`currentKey, this`taalSource, this`intervalActive, this`matrasIndex, this`tanpuraAudio, this`currentBpm
      ensures Valid()
      ensures currentTaal == Lower(value) && matrasCount == MatrasFor(Lower(value))
      ensures currentKey == PinnedKey(audioFiles, Lower(value), old(currentKey))
      ensures old(RestartGuard()) ==>
                && tanpuraAudio == None && taalSource && intervalActive && matrasIndex == Index(1)
                && currentBpm == StartBpm(old(currentBpm))
      ensures !old(RestartGuard()) ==>
                && tanpuraAudio == old(tanpuraAudio) && currentBpm == old(currentBpm) && taalSource == old(taalSource)
                && intervalActive == old(intervalActive) && matrasIndex == old(matrasIndex)
      ensures old(Dormant()) ==> Dormant()
    {
      var taal := Lower(value);
      SetTaal(taal);
      assert RestartGuard() == old(RestartGuard()) && Dormant() == old(Dormant());
      PinnedKeyStable(audioFiles, taal, old(currentKey));
      RestartIfPlaying(toggle);
    }

    /** The tanpura half of the key listener: with the checkbox on, the drone restarts in the current key. */
    method RetuneTanpura(toggle: Toggle)
      requires Valid()
      modifies this`tanpuraAudio, this`tanpuraVoices
      ensures Valid()
      ensures toggle == Present(true) ==> tanpuraAudio == Some(TanpuraUrl(currentKey))
      ensures toggle != Present(true) ==> tanpuraAudio == old(tanpuraAudio) && tanpuraVoices == old(tanpuraVoices)
      ensures old(SingleDrone()) ==> SingleDrone()
    {
      if toggle.Present? && toggle.checked {
        StopTanpura();
        PlayTanpura();
      }
    }

    /**
     * The key dropdown's change listener. With the tabla playing, the restart
     * drops the handle of the drone just started in the new key, which then
     * sounds on with nothing left to stop it.
     */
    method SelectKey(value: string, toggle: Toggle)
      requires Valid()
      modifies this`currentKey, this`tanpuraAudio, this`tanpuraVoices, this`taalSource, this`intervalActive, this`matrasIndex, this`currentBpm
      ensures Valid()
      ensures currentKey == if old(RestartGuard()) && toggle.Present? then PinnedKey(audioFiles, currentTaal, value) else value
      ensures !old(RestartGuard()) ==>
                tanpuraAudio == if toggle == Present(true) then Some(TanpuraUrl(value)) else old(tanpuraAudio)
      ensures old(RestartGuard()) ==> tanpuraAudio == None
      ensures toggle != Present(true) ==> tanpuraVoices == old(tanpuraVoices)
      ensures !old(RestartGuard()) && old(SingleDrone()) ==> SingleDrone()
      ensures old(RestartGuard()) && old(SingleDrone()) && toggle == Present(true) ==> tanpuraVoices == 1
      ensures old(RestartGuard()) ==>
                taalSource && intervalActive && matrasIndex == Index(1) && currentBpm == StartBpm(old(currentBpm))
      ensures !old(RestartGuard()) ==>
                && currentBpm == old(currentBpm) && taalSource == old(taalSource)
                && intervalActive == old(intervalActive) && matrasIndex == old(matrasIndex)
      ensures old(Dormant()) ==> Dormant()
    {
      currentKey := value;
      RetuneTanpura(toggle);
      assert currentKey == value && RestartGuard() == old(RestartGuard());
      RestartIfPlaying(toggle);
    }

    /** The tail of both BPM buttons: the new tempo, then a restart when playing. */
    method SetBpm(bpm: int, toggle: Toggle)
      requires Valid()
      modifies this`currentKey, this`taalSource, this`intervalActive, this`matrasIndex, this`tanpuraAudio, this`currentBpm
      ensures Valid()
      ensures old(RestartGuard()) ==>
                && currentBpm == StartBpm(bpm) && tanpuraAudio == None
                && taalSource && intervalActive && matrasIndex == Index(1)
                && currentKey == if toggle.Present? then PinnedKey(audioFiles, currentTaal, old(currentKey)) else old(currentKey)
      ensures !old(RestartGuard()) ==>
                && currentBpm == bpm && currentKey == old(currentKey) && tanpuraAudio == old(tanpuraAudio)
                && taalSource == old(taalSource) && intervalActive == old(intervalActive) && matrasIndex == old(matrasIndex)
    {
      currentBpm := bpm;
      RestartIfPlaying(toggle);
    }

    /**
     * The increase-BPM button: the entry after the current tempo's first
     * position on the ladder of the current taal and key; at the top (or on
     * an empty ladder) the click does nothing.
     */
    method IncreaseBpm(toggle: Toggle)
      requires Valid()
      modifies this`currentKey, this`taalSource, this`intervalActive, this`matrasIndex, this`tanpuraAudio, this`currentBpm
      ensures Valid()
      ensures var ladder := old(Catalog.Ladder(audioFiles, currentTaal, currentKey));
              IndexOf(ladder, old(currentBpm)) >= |ladder| - 1 ==> unchanged(this)
      ensures !old(RestartGuard()) ==>
                && currentBpm == StepUp(old(Catalog.Ladder(audioFiles, currentTaal, currentKey)), old(currentBpm))
                && currentKey == old(currentKey) && tanpuraAudio == old(tanpuraAudio) && taalSource == old(taalSource)
                && intervalActive == old(intervalActive) && matrasIndex == old(matrasIndex)
      ensures var ladder := old(Catalog.Ladder(audioFiles, currentTaal, currentKey));
              old(RestartGuard()) && IndexOf(ladder, old(currentBpm)) < |ladder| - 1 ==>
                && currentBpm == StartBpm(StepUp(ladder, old(currentBpm))) && tanpuraAudio == None
                && taalSource && intervalActive && matrasIndex == Index(1)
                && currentKey == if toggle.Present? then PinnedKey(audioFiles, currentTaal, old(currentKey)) else old(currentKey)
      ensures old(Dormant()) ==> Dormant()
    {
      var availableSpeeds := Catalog.Ladder(audioFiles, currentTaal, currentKey);
      var currentIndex := IndexOf(availableSpeeds, currentBpm);
      if currentIndex < |availableSpeeds| - 1 {
        assert StepUp(availableSpeeds, currentBpm) == availableSpeeds[currentIndex + 1];
        SetBpm(availableSpeeds[currentIndex + 1], toggle);
      } else {
        assert StepUp(availableSpeeds, currentBpm) == currentBpm;
      }
    }

    /** The decrease-BPM button: the entry before the current tempo's first position; at the bottom or off the ladder, nothing. */
    method DecreaseBpm(toggle: Toggle)
      requires Valid()
      modifies this`currentKey, this`taalSource, this`intervalActive, this`matrasIndex, this`tanpuraAudio, this`currentBpm
      ensures Valid()
      ensures var ladder := old(Catalog.Ladder(audioFiles, currentTaal, currentKey));
              IndexOf(ladder, old(currentBpm)) <= 0 ==> unchanged(this)
      ensures !old(RestartGuard()) ==>
                && currentBpm == StepDown(old(Catalog.Ladder(audioFiles, currentTaal, currentKey)), old(currentBpm))
                && currentKey == old(currentKey) && tanpuraAudio == old(tanpuraAudio) && taalSource == old(taalSource)
                && intervalActive == old(intervalActive) && matrasIndex == old(matrasIndex)
      ensures var ladder := old(Catalog.Ladder(audioFiles, currentTaal, currentKey));
              old(RestartGuard()) && IndexOf(ladder, old(currentBpm)) > 0 ==>
                && currentBpm == StartBpm(StepDown(ladder, old(currentBpm))) && tanpuraAudio == None
                && taalSource && intervalActive && matrasIndex == Index(1)
                && currentKey == if toggle.Present? then PinnedKey(audioFiles, currentTaal, old(currentKey)) else old(currentKey)
      ensures old(Dormant()) ==> Dormant()
    {
      var availableSpeeds := Catalog.Ladder(audioFiles, currentTaal, currentKey);
      var currentIndex := IndexOf(availableSpeeds, currentBpm);
      if currentIndex > 0 {
        assert StepDown(availableSpeeds, currentBpm) == availableSpeeds[currentIndex - 1];
        SetBpm(availableSpeeds[currentIndex - 1], toggle);
      } else {
        assert StepDown(availableSpeeds, currentBpm) == currentBpm;
      }
    }
  }

  /**
   * Play (which first registers the tanpura listener), tanpura on, Play
   * again, tanpura off, tanpura on: two drones sound at once, and switching
   * the tanpura off silences only one of them.
   */
  method TanpuraOverlap() returns (sounding: nat, afterStop: nat)
    ensures sounding == 2 && afterStop == 1
  {
    var e := new ETabla();
    e.PlayTaal(Present(false));
    e.ToggleTanpura(true);
    e.PlayTaal(Present(true));
    e.ToggleTanpura(false);
    e.ToggleTanpura(true);
    sounding := e.tanpuraVoices;
    e.ToggleTanpura(false);
    afterStop := e.tanpuraVoices;
  }

  /** The same presses with the handle kept: one drone, and switching off silences it. */
  method TanpuraKept() returns (sounding: nat, afterStop: nat)
    ensures sounding == 1 && afterStop == 0
  {
    var e := new ETabla();
    e.PlayTaalKeepingTanpura(Present(false));
    e.ToggleTanpura(true);
    e.PlayTaalKeepingTanpura(Present(true));
    e.ToggleTanpura(false);
    e.ToggleTanpura(true);
    sounding := e.tanpuraVoices;
    e.ToggleTanpura(false);
    afterStop := e.tanpuraVoices;
  }
}
