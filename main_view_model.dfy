/**
 * MainViewModel: the state the main page binds to (groups, playlists, the
 * querying flag, the error pair and the data-loaded guard) and the
 * operations that change it. Property-change notifications are the ghost
 * log `notifications`, the blocking message box the ghost log `alerts`, and
 * the calls into PlaylistItem (Initialize, LoadVideos) are recorded as
 * ghost counters and logs, since their bodies are not part of this model.
 */
module ViewModels {
  import opened Wrappers
  import opened Models
  import opened Catalog
  import LocalStorage

  const ErrorMessageProperty: string := "ErrorMessage"
  const IsErrorProperty: string := "IsError"
  const QueryingProperty: string := "Querying"

  /**
   * What becomes of GetVideo's `result` callback: it is called with a video
   * or with null, or it is never called because SingleOrDefault threw.
   */
  datatype Delivery = Delivered(vid: Option<Video>) | Faulted

  class MainViewModel {
    var groups: seq<Group>
    var playlists: seq<Playlist>
    var querying: bool
    var isDataLoaded: bool
    /** `None` is the null the property holds until the first SetError. */
    var errorMessage: Option<string>
    var isError: bool

    /** The property names passed to NotifyPropertyChanged, in order. */
    ghost var notifications: seq<string>
    /** The messages shown with UIThread.MessageBox, in order. */
    ghost var alerts: seq<string>
    /** How many times PlaylistItem.Initialize has been called. */
    ghost var initializeCalls: nat
    /** The indices into `playlists` of the playlists LoadVideos was called on. */
    ghost var loadVideosCalls: seq<nat>

    /** Initialize has run exactly when the data is marked loaded, so at most once. */
    ghost predicate Valid()
      reads this
    {
      initializeCalls == (if isDataLoaded then 1 else 0) &&
      forall k :: 0 <= k < |loadVideosCalls| ==> loadVideosCalls[k] < |playlists|
    }

    constructor ()
      ensures Valid()
      ensures groups == [] && playlists == []
      ensures !querying && !isDataLoaded && errorMessage == None && !isError
      ensures notifications == [] && alerts == [] && loadVideosCalls == []
    {
      groups, playlists := [], [];
      querying, isDataLoaded := false, false;
      errorMessage, isError := None, false;
      notifications, alerts := [], [];
      initializeCalls, loadVideosCalls := 0, [];
    }

    /** Raises PropertyChanged for `propertyName`. */
    method NotifyPropertyChanged(propertyName: string)
      modifies this`notifications
      ensures notifications == old(notifications) + [propertyName]
    {
      notifications := notifications + [propertyName];
    }

    /** Shows `message` to the user, then records the fault and announces both properties. */
    method SetError(message: string)
      requires Valid()
      modifies this`alerts, this`isError, this`errorMessage, this`notifications
      ensures Valid()
      ensures isError && errorMessage == Some(message)
      ensures alerts == old(alerts) + [message]
      ensures notifications == old(notifications) + [ErrorMessageProperty, IsErrorProperty]
    {
      alerts := alerts + [message];
      isError := true;
      errorMessage := Some(message);
      NotifyPropertyChanged(ErrorMessageProperty);
      NotifyPropertyChanged(IsErrorProperty);
    }

    /** Marks a server query as running; there is no reference count, so the flag is simply set. */
    method StartQuerying() returns (handle: QueryingHandle)
      requires Valid()
      modifies this`querying, this`notifications
      ensures Valid()
      ensures querying
      ensures notifications == old(notifications) + [QueryingProperty]
      ensures fresh(handle) && handle.model == this
    {
      querying := true;
      NotifyPropertyChanged(QueryingProperty);
      handle := new QueryingHandle(this);
    }

    /** Clears the querying flag; nothing calls it, since the handle's Dispose does not. */
    method StopQuerying()
      requires Valid()
      modifies this`querying, this`notifications
      ensures Valid()
      ensures !querying
      ensures notifications == old(notifications) + [QueryingProperty]
    {
      querying := false;
      NotifyPropertyChanged(QueryingProperty);
    }

    /**
     * Stands for PlaylistItem.LoadVideos, a method of the playlist and not of
     * the view model: the call on the playlist at index `k` is an abstract
     * collaborator effect, recorded in the log and nothing more.
     */
    method LoadVideos(k: nat)
      requires Valid() && k < |playlists|
      modifies this`loadVideosCalls
      ensures Valid()
      ensures loadVideosCalls == old(loadVideosCalls) + [k]
    {
      loadVideosCalls := loadVideosCalls + [k];
    }

    /**
     * The first playlist named `playlistName`, after asking it to load its
     * videos. The source dereferences the lookup's result unconditionally, so
     * a playlist of that name must exist.
     */
    method GetPlaylist(playlistName: string) returns (playlist: Playlist)
      requires Valid()
      requires exists k :: 0 <= k < |playlists| && playlists[k].name == playlistName
      modifies this`loadVideosCalls
      ensures Valid()
      ensures FirstNamed(playlists, playlistName) < |playlists|
      ensures playlist == playlists[FirstNamed(playlists, playlistName)] && playlist.name == playlistName
      ensures loadVideosCalls == old(loadVideosCalls) + [FirstNamed(playlists, playlistName)]
    {
      var found := FirstOrDefault(playlists, playlistName);
      FirstOrDefaultIsFirst(playlists, playlistName);
      playlist := found.value;
      LoadVideos(FirstNamed(playlists, playlistName));
    }

    /**
     * Resolves a video: from disk when it is cached there, otherwise from the
     * playlists in memory, saving a video found there back to disk. A lookup
     * that matches more than one video throws, so neither the save nor the
     * callback happens.
     */
    method GetVideo(store: LocalStorage.Store, playlistName: string, name: string) returns (d: Delivery)
      modifies store`saved
      ensures (playlistName, name) in store.disk ==>
        d == Delivered(Some(store.disk[(playlistName, name)])) && store.saved == old(store.saved)
      ensures (playlistName, name) !in store.disk ==>
        match Lookup(playlists, playlistName, name)
        case NoElement => d == Delivered(None) && store.saved == old(store.saved)
        case Element(v) => d == Delivered(Some(v)) && store.saved == old(store.saved) + [v]
        case Duplicate => d == Faulted && store.saved == old(store.saved)
      // The same outcomes, by position (playlist index, video index) in the catalog:
      ensures (playlistName, name) !in store.disk && (forall i, j :: !VideoAt(playlists, playlistName, name, i, j)) ==>
        d == Delivered(None) && store.saved == old(store.saved)
      ensures forall i, j ::
        (playlistName, name) !in store.disk && VideoAt(playlists, playlistName, name, i, j) &&
        (forall i', j' :: VideoAt(playlists, playlistName, name, i', j') ==> i' == i && j' == j) ==>
          d == Delivered(Some(playlists[i].videos[j])) && store.saved == old(store.saved) + [playlists[i].videos[j]]
      ensures forall i1, j1, i2, j2 ::
        (playlistName, name) !in store.disk &&
        VideoAt(playlists, playlistName, name, i1, j1) && VideoAt(playlists, playlistName, name, i2, j2) &&
        (i1 != i2 || j1 != j2) ==>
          d == Faulted && store.saved == old(store.saved)
    {
      var vid := store.GetVideo(playlistName, name);
      if vid.Some? {
        d := Delivered(vid);
        return;
      }
      LookupNone(playlists, playlistName, name);
      forall i, j | VideoAt(playlists, playlistName, name, i, j) &&
        (forall i', j' :: VideoAt(playlists, playlistName, name, i', j') ==> i' == i && j' == j)
        ensures Lookup(playlists, playlistName, name) == Element(playlists[i].videos[j])
      {
        LookupUnique(playlists, playlistName, name, i, j);
      }
      forall i1, j1, i2, j2 | VideoAt(playlists, playlistName, name, i1, j1) &&
        VideoAt(playlists, playlistName, name, i2, j2) && (i1 != i2 || j1 != j2)
        ensures Lookup(playlists, playlistName, name) == Duplicate
      {
        LookupDuplicate(playlists, playlistName, name, i1, j1, i2, j2);
      }
      var single := SingleOrDefault(CatalogVideos(playlists, playlistName), name);
      match single
      case NoElement =>
        d := Delivered(None);
      case Element(v) =>
        store.SaveVideo(v);
        d := Delivered(Some(v));
      case Duplicate =>
        d := Faulted;
    }

    /** Marks the data as loaded and, the first time only, fills the groups and playlists. */
    method LoadData(initialGroups: seq<Group>, initialPlaylists: seq<Playlist>)
      requires Valid()
      modifies this`isDataLoaded, this`initializeCalls, this`groups, this`playlists
      ensures Valid() && isDataLoaded && initializeCalls == 1
      ensures old(isDataLoaded) ==> groups == old(groups) && playlists == old(playlists)
      ensures !old(isDataLoaded) ==>
        groups == old(groups) + initialGroups && playlists == old(playlists) + initialPlaylists
    {
      if !isDataLoaded {
        isDataLoaded := true;
        Initialize(initialGroups, initialPlaylists);
      }
    }

    /**
     * Stands for the static PlaylistItem.Initialize(Groups, Playlists), an
     * abstract collaborator effect: it adds what it reads to the two
     * collections, and what it adds is its own business, so it is a
     * parameter. It is called only from LoadData, which sets IsDataLoaded
     * first; on its own it bumps the call count and so does not keep Valid().
     */
    method Initialize(newGroups: seq<Group>, newPlaylists: seq<Playlist>)
      modifies this`initializeCalls, this`groups, this`playlists
      ensures initializeCalls == old(initializeCalls) + 1
      ensures groups == old(groups) + newGroups && playlists == old(playlists) + newPlaylists
    {
      initializeCalls := initializeCalls + 1;
      groups := groups + newGroups;
      playlists := playlists + newPlaylists;
    }
  }

  /** The handle StartQuerying returns, meant to be disposed by a `using` block. */
  class QueryingHandle {
    const model: MainViewModel

    constructor (model: MainViewModel)
      ensures this.model == model
    {
      this.model := model;
    }

    /** Does nothing: the call to StopQuerying is commented out, so the flag stays as it is. */
    method Dispose()
      ensures model.querying == old(model.querying)
      ensures model.notifications == old(model.notifications)
    {
    }
  }

  /** `using (vm.StartQuerying()) { }`: the flag is still set once the handle is disposed. */
  method QueryingScope(vm: MainViewModel)
    requires vm.Valid()
    modifies vm`querying, vm`notifications
    ensures vm.Valid() && vm.querying
    ensures vm.notifications == old(vm.notifications) + [QueryingProperty]
  {
    var handle := vm.StartQuerying();
    handle.Dispose();
  }

  /** Two calls of LoadData run Initialize once and add the catalog once. */
  method LoadDataTwice(vm: MainViewModel, initialGroups: seq<Group>, initialPlaylists: seq<Playlist>)
    requires vm.Valid() && !vm.isDataLoaded
    modifies vm`isDataLoaded, vm`initializeCalls, vm`groups, vm`playlists
    ensures vm.Valid() && vm.isDataLoaded && vm.initializeCalls == 1
    ensures vm.groups == old(vm.groups) + initialGroups && vm.playlists == old(vm.playlists) + initialPlaylists
  {
    vm.LoadData(initialGroups, initialPlaylists);
    vm.LoadData(initialGroups, initialPlaylists);
  }
}
