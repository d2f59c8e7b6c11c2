/*
 * The web views that hold the one camera object: the module-level `camera`
 * and the `CAMERA_ENABLED` safety lock that keeps stray feed requests from
 * restarting the hardware, and the registration form's checks.
 */
module Views {
  import opened Optional
  import opened Streams
  import Camera

  /** The two globals, seen from outside: whether a camera object exists, and the lock. */
  datatype Lock = Lock(hasCamera: bool, enabled: bool)

  /** The requests that touch the globals. */
  datatype Request =
    | Feed              // video_feed / cctv_feed: get_camera(initialize=True)
    | ReleaseCam        // release_camera()
    | Stop              // stop_camera
    | Scan(authenticated: bool, start: bool)     // scan_view; start is `?start=1`
    | Cctv(authenticated: bool)                  // cctv_view
    | Register(authenticated: bool, localIp: bool) // register_view; localIp: the host starts with 127.0.0.1

  /**
   * The effect of one request on the globals. scan_view, cctv_view and
   * register_view require a logged-in user: an anonymous request is
   * redirected to the login page and changes nothing.
   */
  function Handle(g: Lock, r: Request): (h: Lock)
    ensures h.enabled && !g.enabled ==> Enables(r)
    ensures h.hasCamera && !g.hasCamera ==> r == Feed && g.enabled
    ensures r == Feed && g.enabled ==> h.hasCamera
    ensures r == Stop ==> h == Lock(false, false)
  {
    match r
    case Feed => g.(hasCamera := g.hasCamera || g.enabled)
    case ReleaseCam => g.(hasCamera := false)
    case Stop => Lock(false, false)
    case Scan(auth, start) => if auth then g.(enabled := g.enabled || start) else g
    case Cctv(auth) => if auth then g.(enabled := true) else g
    case Register(auth, localIp) => if auth && !localIp then Lock(false, false) else g
  }

  function Serve(g: Lock, rs: seq<Request>): Lock
    decreases |rs|
  {
    if rs == [] then g else Serve(Handle(g, rs[0]), rs[1..])
  }

  /** The only requests that lift the lock: a logged-in cctv_view or scan_view?start=1. */
  predicate Enables(r: Request) {
    r == Cctv(true) || r == Scan(true, true)
  }

  /**
   * Once locked with no camera (as after stop_camera or the registration
   * page), no request sequence that does not lift the lock creates a camera.
   */
  lemma {:induction false} LockHolds(g: Lock, rs: seq<Request>)
    requires g == Lock(false, false)
    requires forall i :: 0 <= i < |rs| ==> !Enables(rs[i])
    ensures Serve(g, rs) == Lock(false, false)
    decreases |rs|
  {
    if rs != [] {
      assert !Enables(rs[0]);
      LockHolds(Handle(g, rs[0]), rs[1..]);
    }
  }

  /** Stop, then anything short of an enabling request, and the feed still gets no camera. */
  lemma StopKeepsFeedDark(g: Lock, rs: seq<Request>)
    requires forall i :: 0 <= i < |rs| ==> !Enables(rs[i])
    ensures !Serve(Handle(g, Stop), rs + [Feed]).hasCamera
  {
    LockHolds(Handle(g, Stop), rs);
    ServeAppend(Handle(g, Stop), rs, [Feed]);
  }

  /** A logged-in request that lifts the lock is enough: the next feed request creates the camera. */
  lemma EnablingStartsFeed(g: Lock, r: Request)
    requires Enables(r)
    ensures Serve(g, [r, Feed]).hasCamera
  {
    assert Serve(g, [r, Feed]) == Serve(Handle(Handle(g, r), Feed), []) by {
      assert [r, Feed][1..] == [Feed];
      assert [Feed][1..] == [];
    }
  }

  /** Anonymous scan, cctv and register requests never touch the globals. */
  lemma AnonymousRequestsIgnored(g: Lock, start: bool, localIp: bool)
    ensures Handle(g, Scan(false, start)) == g
    ensures Handle(g, Cctv(false)) == g
    ensures Handle(g, Register(false, localIp)) == g
  {
  }

  lemma {:induction false} ServeAppend(g: Lock, a: seq<Request>, b: seq<Request>)
    ensures Serve(g, a + b) == Serve(Serve(g, a), b)
    decreases |a|
  {
    if a != [] {
      assert (a + b)[1..] == a[1..] + b;
      ServeAppend(Handle(g, a[0]), a[1..], b);
    } else {
      assert a + b == b;
    }
  }

  /** `request.get_host().startswith('127.0.0.1')`. */
  predicate LocalIpHost(host: string) {
    |host| >= 9 && host[..9] == "127.0.0.1"
  }

  /** A posted registration: the form fields (None when absent) and the number of photos. */
  datatype Registration = Registration(name: Option<string>, className: Option<string>, age: Option<string>,
                                       department: Option<string>, photos: nat)

  /**
   * LoginRedirect: an anonymous request sent to the login page.
   * RedirectToLocalhost: the permanent redirect to localhost:8000.
   * RegisterPage: the form (a GET). Registered: the person is fetched or
   * created and every photo saved.
   */
  datatype RegisterOutcome =
    | LoginRedirect
    | RedirectToLocalhost
    | RegisterPage
    | NameRequired
    | TooFewPhotos(received: nat)
    | InvalidDepartment
    | Registered(name: string, department: Option<string>, photos: nat)

  /** Python truthiness of an optional form field: missing and empty are false. */
  predicate Truthy(f: Option<string>) {
    f.Some? && f.value != ""
  }

  /**
   * The checks of a posted registration, in the view's order: a name, at
   * least five photos, a department that exists when one is given. Nothing
   * is stored unless all three pass.
   */
  function Validate(post: Option<Registration>, departments: set<string>): (o: RegisterOutcome)
    ensures o.Registered? <==>
              post.Some? && Truthy(post.value.name) && post.value.photos >= 5
              && (Truthy(post.value.department) ==> post.value.department.value in departments)
    ensures o.Registered? ==>
              && o.name == post.value.name.value && o.photos == post.value.photos
              && o.department == (if Truthy(post.value.department) then post.value.department else None)
    ensures post.Some? && !Truthy(post.value.name) ==> o == NameRequired
    ensures post.Some? && Truthy(post.value.name) && post.value.photos < 5 ==> o == TooFewPhotos(post.value.photos)
  {
    if post.None? then RegisterPage
    else
      var f := post.value;
      if !Truthy(f.name) then NameRequired
      else if f.photos < 5 then TooFewPhotos(f.photos)
      else if Truthy(f.department) && f.department.value !in departments then InvalidDepartment
      else Registered(f.name.value, if Truthy(f.department) then f.department else None, f.photos)
  }

  /** The globals `camera` and `CAMERA_ENABLED`, as one object. */
  class Server {
    var camera: Camera.VideoCamera?
    var enabled: bool

    ghost function LockNow(): Lock
      reads this
    {
      Lock(camera != null, enabled)
    }

    /** Module import: no camera, lock engaged. */
    constructor()
      ensures camera == null && !enabled
    {
      camera := null;
      enabled := false;
    }

    /**
     * get_camera: a camera is constructed only when there is none, the caller
     * asks for one, and the lock is lifted; the global is returned either way.
     */
    method GetCamera(initialize: bool, a1: OpenAttempt, a2: OpenAttempt) returns (c: Camera.VideoCamera?)
      modifies this`camera
      ensures c == camera
      ensures initialize ==> LockNow() == Handle(old(LockNow()), Feed)
      ensures !initialize ==> camera == old(camera)
      ensures old(camera) == null && initialize && enabled ==> fresh(c) && c.Snapshot() == Camera.Initial(a1, a2)
      ensures old(camera) != null || !initialize || !enabled ==> camera == old(camera)
    {
      if camera == null && initialize && enabled {
        camera := new Camera.VideoCamera(a1, a2);
      }
      c := camera;
    }

    /** release_camera: release the camera object, if any, and drop it. */
    method ReleaseCamera()
      modifies this`camera, camera
      ensures LockNow() == Handle(old(LockNow()), ReleaseCam)
      ensures old(camera) != null ==> old(camera).Snapshot() == Camera.Released(old(camera.Snapshot()))
    {
      if camera != null {
        camera.Release();
        camera := null;
      }
    }

    /** stop_camera: engage the lock, then release. */
    method StopCamera()
      modifies this, camera
      ensures LockNow() == Handle(old(LockNow()), Stop)
      ensures old(camera) != null ==> old(camera).Snapshot() == Camera.Released(old(camera.Snapshot()))
    {
      enabled := false;
      ReleaseCamera();
    }

    /**
     * scan_view: for a logged-in user, `?start=1` lifts the lock and the page
     * is told whether it did; an anonymous request (None) goes to the login page.
     */
    method ScanView(authenticated: bool, start: Option<string>) returns (page: Option<bool>)
      modifies this`enabled
      ensures page.Some? <==> authenticated
      ensures page.Some? ==> (page.value <==> start == Some("1"))
      ensures LockNow() == Handle(old(LockNow()), Scan(authenticated, start == Some("1")))
    {
      if !authenticated {
        return None;
      }
      var startRequested := start == Some("1");
      if startRequested {
        enabled := true;
      }
      page := Some(startRequested);
    }

    /** cctv_view: a logged-in user's visit lifts the lock; an anonymous one goes to the login page. */
    method CctvView(authenticated: bool) returns (shown: bool)
      modifies this`enabled
      ensures shown <==> authenticated
      ensures LockNow() == Handle(old(LockNow()), Cctv(authenticated))
    {
      shown := authenticated;
      if authenticated {
        enabled := true;
      }
    }

    /**
     * register_view: an anonymous request goes to the login page and a
     * 127.0.0.1 host is redirected, both before anything else; otherwise the
     * lock is engaged and the camera released and dropped before the form is
     * shown or checked.
     */
    method RegisterView(authenticated: bool, host: string, post: Option<Registration>, departments: set<string>)
      returns (o: RegisterOutcome)
      modifies this, camera
      ensures LockNow() == Handle(old(LockNow()), Register(authenticated, LocalIpHost(host)))
      ensures o == if !authenticated then LoginRedirect
                   else if LocalIpHost(host) then RedirectToLocalhost
                   else Validate(post, departments)
      ensures authenticated && !LocalIpHost(host) && old(camera) != null ==>
                old(camera).Snapshot() == Camera.Released(old(camera.Snapshot()))
    {
      if !authenticated {
        return LoginRedirect;
      }
      if LocalIpHost(host) {
        return RedirectToLocalhost;
      }
      enabled := false;
      if camera != null {
        camera.Release();
        camera := null;
      }
      o := Validate(post, departments);
    }
  }
}
