// The multi-isosurface ray-casting renderer: each volume carries a fixed
// array of 16 iso-value slots (a negative value ends the list) with a colour
// per slot, its geographic placement and a display flag; the renderer keeps
// the volumes by name and the ray-marching step parameters.  The shader
// uniforms are modelled by the values they hold; the rotation matrix the
// setters recompute and the scene-graph nodes are not modelled.
module MultiIsosurfaces {
  import opened Numerics

  /** MaxIsoValNum: the number of iso-value slots. */
  const MAX_ISO_VAL_NUM: nat := 16

  /** An iso-value with its surface colour. */
  type Isosurface = (real, Rgba)

  /** The slot values SetIsosurfaces writes: the first 16 iso-values, then -1
      in every slot left over. */
  function SlotValues(isosurfs: seq<Isosurface>): (vals: seq<real>)
    ensures |vals| == MAX_ISO_VAL_NUM
    ensures forall i :: 0 <= i < MAX_ISO_VAL_NUM && i < |isosurfs| ==> vals[i] == isosurfs[i].0
    ensures forall i :: |isosurfs| <= i < MAX_ISO_VAL_NUM ==> vals[i] == -1.0
  {
    seq(MAX_ISO_VAL_NUM, i requires 0 <= i < MAX_ISO_VAL_NUM => if i < |isosurfs| then isosurfs[i].0 else -1.0)
  }

  /** The first slot at or after i whose value is negative, or the number of
      slots when there is none. */
  function FirstNegative(vals: seq<real>, i: nat): (k: nat)
    requires i <= |vals|
    ensures i <= k <= |vals|
    ensures forall j :: i <= j < k ==> vals[j] >= 0.0
    ensures k < |vals| ==> vals[k] < 0.0
    decreases |vals| - i
  {
    if i == |vals| || vals[i] < 0.0 then i else FirstNegative(vals, i + 1)
  }

  /** The iso-surfaces the slots describe: the leading slots, each with a
      non-negative value, up to the first negative one. */
  function Listed(vals: seq<real>, cols: seq<Rgba>): (r: seq<Isosurface>)
    requires |cols| == |vals|
    ensures |r| <= |vals|
    ensures forall j :: 0 <= j < |r| ==> r[j] == (vals[j], cols[j]) && vals[j] >= 0.0
    ensures |r| < |vals| ==> vals[|r|] < 0.0
  {
    var k := FirstNegative(vals, 0);
    seq(k, j requires 0 <= j < k => (vals[j], cols[j]))
  }

  /** Setting then getting gives back the first 16 iso-surfaces, as long as
      none of them has a negative value. */
  lemma {:induction false} SetGetRoundTrip(isosurfs: seq<Isosurface>, cols: seq<Rgba>)
    requires |cols| == MAX_ISO_VAL_NUM
    requires forall i :: 0 <= i < |isosurfs| && i < MAX_ISO_VAL_NUM ==> isosurfs[i].0 >= 0.0 && cols[i] == isosurfs[i].1
    ensures |isosurfs| <= MAX_ISO_VAL_NUM ==> Listed(SlotValues(isosurfs), cols) == isosurfs
    ensures |isosurfs| > MAX_ISO_VAL_NUM ==> Listed(SlotValues(isosurfs), cols) == isosurfs[..MAX_ISO_VAL_NUM]
  {
    var vals := SlotValues(isosurfs);
    var n := if |isosurfs| < MAX_ISO_VAL_NUM then |isosurfs| else MAX_ISO_VAL_NUM;
    FirstNegativeIs(vals, n);
  }

  /** The first negative slot is n when the slots before it are
      non-negative and slot n, if any, is negative. */
  lemma FirstNegativeIs(vals: seq<real>, n: nat)
    requires n <= |vals| && (forall j :: 0 <= j < n ==> vals[j] >= 0.0)
    requires n < |vals| ==> vals[n] < 0.0
    ensures FirstNegative(vals, 0) == n
  {
  }

  /** MultiIsosurfacesRenderer::PerVolParam without its scene-graph nodes. */
  class PerVolParam {
    const volTex: seq<real>
    const volDim: (nat, nat, nat)
    /** dSamplePos: one voxel's extent in texture coordinates per axis. */
    const dSamplePos: (Float, Float, Float)
    const sortedIsoVals: array<real>
    const isosurfCols: array<Rgba>
    var isDisplayed: bool
    var minLatitude: real
    var maxLatitude: real
    var minLongitude: real
    var maxLongitude: real
    var minHeight: real
    var maxHeight: real
    var volStartFromZeroLon: int
    /** The radius of the bounding sphere the volume is drawn on. */
    var sphereRadius: real

    predicate Valid()
    {
      sortedIsoVals.Length == MAX_ISO_VAL_NUM && isosurfCols.Length == MAX_ISO_VAL_NUM
    }

    /** The default placement (latitude within 10 and longitude within 20
        degrees of zero, heights 1.1 to 1.3 earth radii, the sphere as large
        as the outer height) and the given iso-surfaces. */
    constructor (volTex: seq<real>, sortedIsosurfs: seq<Isosurface>, volDim: (nat, nat, nat))
      ensures Valid() && this.volTex == volTex && this.volDim == volDim
      ensures dSamplePos == (Div(1.0, volDim.0 as real), Div(1.0, volDim.1 as real), Div(1.0, volDim.2 as real))
      ensures GetLatitudeRange() == (Deg2Rad(-10.0), Deg2Rad(10.0))
      ensures GetLongitudeRange() == (Deg2Rad(-20.0), Deg2Rad(20.0))
      ensures GetHeightFromCenterRange() == (WGS_84_RADIUS_EQUATOR * 1.1, WGS_84_RADIUS_EQUATOR * 1.3)
      ensures sphereRadius == WGS_84_RADIUS_EQUATOR * 1.3 && volStartFromZeroLon == 0
      ensures sortedIsoVals[..] == SlotValues(sortedIsosurfs)
      ensures forall i :: 0 <= i < MAX_ISO_VAL_NUM && i < |sortedIsosurfs| ==> isosurfCols[i] == sortedIsosurfs[i].1
      ensures fresh(sortedIsoVals) && fresh(isosurfCols)
    {
      this.volTex := volTex;
      this.volDim := volDim;
      var maxH := WGS_84_RADIUS_EQUATOR * 1.3;
      sphereRadius := maxH;
      minLatitude, maxLatitude := Deg2Rad(-10.0), Deg2Rad(10.0);
      minLongitude, maxLongitude := Deg2Rad(-20.0), Deg2Rad(20.0);
      minHeight, maxHeight := WGS_84_RADIUS_EQUATOR * 1.1, maxH;
      volStartFromZeroLon := 0;
      dSamplePos := (Div(1.0, volDim.0 as real), Div(1.0, volDim.1 as real), Div(1.0, volDim.2 as real));
      sortedIsoVals := new real[MAX_ISO_VAL_NUM];
      isosurfCols := new Rgba[MAX_ISO_VAL_NUM];
      new;
      SetIsosurfaces(sortedIsosurfs);
    }

    /** Writes the first 16 iso-surfaces into the slots and -1 into the value
        of every slot left over; the colours of those slots stay. */
    method SetIsosurfaces(sortedIsosurfs: seq<Isosurface>)
      requires Valid()
      modifies sortedIsoVals, isosurfCols
      ensures sortedIsoVals[..] == SlotValues(sortedIsosurfs)
      ensures forall i :: 0 <= i < MAX_ISO_VAL_NUM ==>
        isosurfCols[i] == if i < |sortedIsosurfs| then sortedIsosurfs[i].1 else old(isosurfCols[i])
    {
      for i := 0 to MAX_ISO_VAL_NUM
        invariant forall j :: 0 <= j < i ==> sortedIsoVals[j] == SlotValues(sortedIsosurfs)[j]
        invariant forall j :: 0 <= j < MAX_ISO_VAL_NUM ==>
          isosurfCols[j] == if j < i && j < |sortedIsosurfs| then sortedIsosurfs[j].1 else old(isosurfCols[j])
      {
        if i < |sortedIsosurfs| {
          sortedIsoVals[i] := sortedIsosurfs[i].0;
          isosurfCols[i] := sortedIsosurfs[i].1;
        } else {
          sortedIsoVals[i] := -1.0;
        }
      }
    }

    /** Reads the slots in order, stopping at the first negative value. */
    method GetIsosurfaces() returns (ret: seq<Isosurface>)
      requires Valid()
      ensures ret == Listed(sortedIsoVals[..], isosurfCols[..])
    {
      ret := [];
      var i := 0;
      while i < MAX_ISO_VAL_NUM
        invariant 0 <= i <= MAX_ISO_VAL_NUM && FirstNegative(sortedIsoVals[..], 0) == FirstNegative(sortedIsoVals[..], i)
        invariant ret == Listed(sortedIsoVals[..i], isosurfCols[..i])
        invariant FirstNegative(sortedIsoVals[..i], 0) == i
      {
        var isoVal := sortedIsoVals[i];
        if isoVal < 0.0 {
          break;
        }
        ret := ret + [(isoVal, isosurfCols[i])];
        i := i + 1;
      }
    }

    function GetLongitudeRange(): (real, real)
      reads this
    {
      (minLongitude, maxLongitude)
    }

    function GetLatitudeRange(): (real, real)
      reads this
    {
      (minLatitude, maxLatitude)
    }

    function GetHeightFromCenterRange(): (real, real)
      reads this
    {
      (minHeight, maxHeight)
    }

    /** Degrees in [-180, 180], the minimum below the maximum: stored in
        radians; otherwise false and nothing changes. */
    method SetLongitudeRange(minLonDeg: real, maxLonDeg: real) returns (ok: bool)
      modifies this
      ensures ok <==> -180.0 <= minLonDeg && maxLonDeg <= 180.0 && minLonDeg < maxLonDeg
      ensures ok ==> GetLongitudeRange() == (Deg2Rad(minLonDeg), Deg2Rad(maxLonDeg))
      ensures ok ==> GetLongitudeRange().0 < GetLongitudeRange().1
      ensures !ok ==> GetLongitudeRange() == old(GetLongitudeRange())
      ensures GetLatitudeRange() == old(GetLatitudeRange()) && GetHeightFromCenterRange() == old(GetHeightFromCenterRange())
      ensures isDisplayed == old(isDisplayed) && volStartFromZeroLon == old(volStartFromZeroLon)
      ensures sphereRadius == old(sphereRadius)
    {
      if minLonDeg < -180.0 {
        return false;
      }
      if maxLonDeg > 180.0 {
        return false;
      }
      if minLonDeg >= maxLonDeg {
        return false;
      }
      minLongitude := Deg2Rad(minLonDeg);
      maxLongitude := Deg2Rad(maxLonDeg);
      return true;
    }

    /** Degrees in [-90, 90], the minimum below the maximum: stored in
        radians; otherwise false and nothing changes. */
    method SetLatitudeRange(minLatDeg: real, maxLatDeg: real) returns (ok: bool)
      modifies this
      ensures ok <==> -90.0 <= minLatDeg && maxLatDeg <= 90.0 && minLatDeg < maxLatDeg
      ensures ok ==> GetLatitudeRange() == (Deg2Rad(minLatDeg), Deg2Rad(maxLatDeg))
      ensures ok ==> GetLatitudeRange().0 < GetLatitudeRange().1
      ensures !ok ==> GetLatitudeRange() == old(GetLatitudeRange())
      ensures GetLongitudeRange() == old(GetLongitudeRange()) && GetHeightFromCenterRange() == old(GetHeightFromCenterRange())
      ensures isDisplayed == old(isDisplayed) && volStartFromZeroLon == old(volStartFromZeroLon)
      ensures sphereRadius == old(sphereRadius)
    {
      if minLatDeg < -90.0 {
        return false;
      }
      if maxLatDeg > 90.0 {
        return false;
      }
      if minLatDeg >= maxLatDeg {
        return false;
      }
      minLatitude := Deg2Rad(minLatDeg);
      maxLatitude := Deg2Rad(maxLatDeg);
      return true;
    }

    /** A non-negative minimum below the maximum: stored, and the bounding
        sphere grows or shrinks to the maximum; otherwise false and nothing
        changes. */
    method SetHeightFromCenterRange(minH: real, maxH: real) returns (ok: bool)
      modifies this
      ensures ok <==> 0.0 <= minH < maxH
      ensures ok ==> GetHeightFromCenterRange() == (minH, maxH) && sphereRadius == maxH
      ensures !ok ==> GetHeightFromCenterRange() == old(GetHeightFromCenterRange()) && sphereRadius == old(sphereRadius)
      ensures GetLongitudeRange() == old(GetLongitudeRange()) && GetLatitudeRange() == old(GetLatitudeRange())
      ensures isDisplayed == old(isDisplayed) && volStartFromZeroLon == old(volStartFromZeroLon)
    {
      if minH < 0.0 {
        return false;
      }
      if minH >= maxH {
        return false;
      }
      minHeight := minH;
      maxHeight := maxH;
      sphereRadius := maxH;
      return true;
    }

    /** The flag as the uniform holds it: 1 for on, 0 for off. */
    method SetVolumeStartFromLongitudeZero(flag: bool)
      modifies this`volStartFromZeroLon
      ensures volStartFromZeroLon == if flag then 1 else 0
    {
      if flag {
        volStartFromZeroLon := 1;
      } else {
        volStartFromZeroLon := 0;
      }
    }
  }

  /** MultiIsosurfacesRenderer: the volumes by name and the ray-marching
      parameters shared by all of them. */
  class MultiIsosurfacesRenderer {
    var vols: map<string, PerVolParam>
    var dt: real
    var maxStepCnt: int

    /** Every volume is well formed and no two names share one. */
    ghost predicate Valid()
      reads this
    {
      && (forall n :: n in vols ==> vols[n].Valid())
      && (forall m, n :: m in vols && n in vols && m != n ==> vols[m] != vols[n])
    }

    /** No volume; the step is 0.008 earth radii and at most 100 steps. */
    constructor ()
      ensures Valid() && vols == map[]
      ensures GetDeltaT() == WGS_84_RADIUS_EQUATOR * 0.008 && GetMaxStepCount() == 100
    {
      vols := map[];
      dt := WGS_84_RADIUS_EQUATOR * 0.008;
      maxStepCnt := 100;
    }

    /** Adds a volume under a name.  A displayed volume of that name is
        replaced; a hidden one is kept with its data, because the map's
        emplace does not overwrite, and only its display flag is set. */
    method AddVolume(name: string, volTex: seq<real>, sortedIsosurfs: seq<Isosurface>,
                     volDim: (nat, nat, nat), isDisplayed: bool)
      requires Valid()
      modifies this`vols, (if name in vols then {vols[name]} else {})`isDisplayed
      ensures Valid()
      ensures vols.Keys == old(vols.Keys) + {name}
      ensures forall n :: n in old(vols) && n != name ==> vols[n] == old(vols[n])
      ensures forall n :: n in old(vols) && n != name ==> unchanged(old(vols[n]))
      ensures forall n :: n in old(vols) && n != name ==> vols[n].isDisplayed == old(vols[n].isDisplayed)
      ensures vols[name].isDisplayed == isDisplayed
      ensures name in old(vols) && !old(vols[name].isDisplayed) ==> vols[name] == old(vols[name])
      ensures name !in old(vols) || old(vols[name].isDisplayed) ==>
        && fresh(vols[name]) && vols[name].volTex == volTex && vols[name].volDim == volDim
        && vols[name].sortedIsoVals[..] == SlotValues(sortedIsosurfs)
      ensures dt == old(dt) && maxStepCnt == old(maxStepCnt)
    {
      if name in vols && vols[name].isDisplayed {
        Erase(name);
      }
      var p := Emplace(name, volTex, sortedIsosurfs, volDim);
      p.isDisplayed := isDisplayed;
    }

    /** Removes the named volume from the map. */
    method Erase(name: string)
      requires Valid()
      modifies this`vols
      ensures Valid() && vols == old(vols) - {name}
    {
      vols := vols - {name};
    }

    /** The map's emplace: a new volume when the name is free, otherwise the
        volume already there. */
    method Emplace(name: string, volTex: seq<real>, sortedIsosurfs: seq<Isosurface>,
                   volDim: (nat, nat, nat)) returns (p: PerVolParam)
      requires Valid()
      modifies this`vols
      ensures Valid() && vols == old(vols)[name := p]
      ensures forall n :: n in old(vols) && n != name ==> old(vols[n]) != p
      ensures name in old(vols) ==> p == old(vols[name])
      ensures name !in old(vols) ==>
        fresh(p) && p.volTex == volTex && p.volDim == volDim && p.sortedIsoVals[..] == SlotValues(sortedIsosurfs)
    {
      if name in vols {
        return vols[name];
      }
      p := new PerVolParam(volTex, sortedIsosurfs, volDim);
      vols := vols[name := p];
    }

    /** Displays the named volume, if there is one, and hides every other. */
    method DisplayVolume(name: string)
      requires Valid()
      modifies vols.Values`isDisplayed
      ensures Valid()
      ensures vols == old(vols)
      ensures forall n :: n in vols ==> vols[n].isDisplayed == (n == name)
    {
      var todo := vols.Keys;
      while todo != {}
        invariant todo <= vols.Keys
        invariant forall n :: n in vols && n !in todo ==> vols[n].isDisplayed == (n == name)
        decreases todo
      {
        var n :| n in todo;
        if n == name {
          vols[n].isDisplayed := true;
        } else if vols[n].isDisplayed {
          vols[n].isDisplayed := false;
        }
        todo := todo - {n};
      }
    }

    /** The volume of that name, or null when there is none. */
    method GetVolume(name: string) returns (p: PerVolParam?)
      ensures name in vols ==> p == vols[name]
      ensures name !in vols ==> p == null
    {
      if name !in vols {
        return null;
      }
      return vols[name];
    }

    method GetVolumeNum() returns (n: nat)
      ensures n == |vols.Keys|
    {
      return |vols|;
    }

    function GetDeltaT(): real
      reads this
    {
      dt
    }

    /** The step is stored as given and read back unchanged. */
    method SetDeltaT(dt: real)
      modifies this`dt
      ensures GetDeltaT() == dt
    {
      this.dt := dt;
    }

    function GetMaxStepCount(): int
      reads this
    {
      maxStepCnt
    }

    /** The step count is stored as given and read back unchanged. */
    method SetMaxStepCount(maxStepCnt: int)
      modifies this`maxStepCnt
      ensures GetMaxStepCount() == maxStepCnt
    {
      this.maxStepCnt := maxStepCnt;
    }
  }
}
